/**
 * Bounded Node Traversal: a greedy engine that, round after round, gives
 * the uncompleted task with the best one-task solution all the agents that
 * can reach it, and moves those agents there.
 */
module Bnt {
  import opened Wrappers
  import opened Locations
  import opened TimeWindows
  import opened Tasks
  import opened Agents
  import opened Allocations
  import opened Scores
  import opened Solutions
  import opened Marsc
  import opened SolverCore
  import Growth
  import Toolkit

  function Max(a: int, b: int): (r: int)
    ensures r >= a && r >= b && (r == a || r == b)
  {
    if a > b then a else b
  }

  /* ---------- assignable agents ---------- */

  /** When an agent can be at a location: its last working time plus the travel from where it is. */
  function ArrivalAt(a: Agent, location: Location, travel: TravelTime): int {
    a.endTime + TravelTimeTo(a, location, travel)
  }

  /** The agent can be at the location by the task's hard deadline. */
  predicate Reaches(a: Agent, v: Task, location: Location, travel: TravelTime) {
    ArrivalAt(a, location, travel) <= v.demand.timeWindow.hardLatestTime
  }

  /** The agent with its arrival time set: it cannot start before the earliest time. */
  function Arrive(a: Agent, v: Task, location: Location, travel: TravelTime): (r: Agent)
    ensures r == a.(arrivalTime := r.arrivalTime)
    ensures r.arrivalTime >= ArrivalAt(a, location, travel) && r.arrivalTime >= v.demand.timeWindow.earliestTime
    ensures r.arrivalTime == ArrivalAt(a, location, travel) || r.arrivalTime == v.demand.timeWindow.earliestTime
  {
    a.(arrivalTime := Max(ArrivalAt(a, location, travel), v.demand.timeWindow.earliestTime))
  }

  /** What `getAssignable` leaves in the agent array: arrival times of reaching agents set, nothing else changed. */
  function PrepareAgents(agents: seq<Agent>, v: Task, location: Location, travel: TravelTime): (r: seq<Agent>)
    ensures |r| == |agents|
    ensures forall k :: 0 <= k < |agents| ==> r[k] == agents[k].(arrivalTime := r[k].arrivalTime)
    ensures forall k :: 0 <= k < |agents| ==>
      if Reaches(agents[k], v, location, travel) then r[k] == Arrive(agents[k], v, location, travel) else r[k] == agents[k]
  {
    seq(|agents|, k requires 0 <= k < |agents| =>
      if Reaches(agents[k], v, location, travel) then Arrive(agents[k], v, location, travel) else agents[k])
  }

  /** The reaching agents, with their arrival times set, in array order. */
  function Eligible(agents: seq<Agent>, v: Task, location: Location, travel: TravelTime): seq<Agent>
    decreases |agents|
  {
    if |agents| == 0 then []
    else
      var a := agents[|agents| - 1];
      Eligible(agents[..|agents| - 1], v, location, travel) +
        if Reaches(a, v, location, travel) then [Arrive(a, v, location, travel)] else []
  }

  /** `byArrivalTime`: `Integer.compare` on arrival times. */
  function ByArrivalTime(a: Agent, b: Agent): int {
    if a.arrivalTime < b.arrivalTime then -1 else if a.arrivalTime == b.arrivalTime then 0 else 1
  }

  function ArrivalKey(a: Agent): Key {
    Key(a.arrivalTime, 0)
  }

  lemma ByArrivalTimeKeyed()
    ensures KeyedBy(ByArrivalTime, ArrivalKey)
  {
  }

  /** The tree set `getAssignable` returns. */
  function AssignableOf(agents: seq<Agent>, v: Task, location: Location, travel: TravelTime): seq<Agent> {
    TreeOf(Eligible(agents, v, location, travel), ByArrivalTime)
  }

  /** The eligible agents are exactly the reaching agents, with their arrival times set. */
  lemma {:induction false} EligibleMembers(agents: seq<Agent>, v: Task, location: Location, travel: TravelTime, y: Agent)
    ensures y in Eligible(agents, v, location, travel) <==>
      exists k :: 0 <= k < |agents| && Reaches(agents[k], v, location, travel) && y == Arrive(agents[k], v, location, travel)
    decreases |agents|
  {
    if |agents| > 0 {
      var init := agents[..|agents| - 1];
      EligibleMembers(init, v, location, travel, y);
      assert forall k :: 0 <= k < |init| ==> init[k] == agents[k];
    }
  }

  /** The assignable agents are sorted strictly by arrival time and keep, of agents tied on it, the first eligible one. */
  lemma AssignableSorted(agents: seq<Agent>, v: Task, location: Location, travel: TravelTime)
    ensures var s := AssignableOf(agents, v, location, travel);
      && (forall i, j :: 0 <= i < j < |s| ==> s[i].arrivalTime < s[j].arrivalTime)
      && FirstOfEachKey(Eligible(agents, v, location, travel), s, ArrivalKey)
  {
    var s := AssignableOf(agents, v, location, travel);
    ByArrivalTimeKeyed();
    TreeOfKeyed(Eligible(agents, v, location, travel), ByArrivalTime, ArrivalKey);
    forall i, j | 0 <= i < j < |s|
      ensures s[i].arrivalTime < s[j].arrivalTime
    {
      assert KeyLess(ArrivalKey(s[i]), ArrivalKey(s[j]));
    }
  }

  /** Each assignable agent is a reaching agent with its arrival time set. */
  lemma AssignableMembers(agents: seq<Agent>, v: Task, location: Location, travel: TravelTime, y: Agent)
    requires y in AssignableOf(agents, v, location, travel)
    ensures exists k :: 0 <= k < |agents| && Reaches(agents[k], v, location, travel) && y == Arrive(agents[k], v, location, travel)
  {
    var e := Eligible(agents, v, location, travel);
    TreeOfSubMultiset(e, ByArrivalTime);
    assert y in multiset(AssignableOf(agents, v, location, travel));
    assert y in e;
    EligibleMembers(agents, v, location, travel, y);
  }

  /** The arrival time of every reaching agent is the arrival time of an assignable one. */
  lemma AssignableCovers(agents: seq<Agent>, v: Task, location: Location, travel: TravelTime, k: int)
    requires 0 <= k < |agents| && Reaches(agents[k], v, location, travel)
    ensures var s := AssignableOf(agents, v, location, travel);
      exists j :: 0 <= j < |s| && s[j].arrivalTime == Arrive(agents[k], v, location, travel).arrivalTime
  {
    var e := Eligible(agents, v, location, travel);
    var s := AssignableOf(agents, v, location, travel);
    var y := Arrive(agents[k], v, location, travel);
    EligibleMembers(agents, v, location, travel, y);
    var m :| 0 <= m < |e| && e[m] == y;
    ByArrivalTimeKeyed();
    TreeOfKeyed(e, ByArrivalTime, ArrivalKey);
    assert HasKey(s, ArrivalKey, ArrivalKey(e[m]));
  }

  /** With a valid window, every assignable agent arrives within it. */
  lemma AssignableWithinWindow(agents: seq<Agent>, v: Task, location: Location, travel: TravelTime, y: Agent)
    requires TimeWindows.Valid(v.demand.timeWindow) && y in AssignableOf(agents, v, location, travel)
    ensures 0 <= v.demand.timeWindow.earliestTime <= y.arrivalTime <= v.demand.timeWindow.hardLatestTime
  {
    AssignableMembers(agents, v, location, travel, y);
  }

  /** `getAssignable`: sets the arrival time of every agent that can reach the location in time and collects them. */
  method GetAssignable(v: Task, location: Location, agents: seq<Agent>, travel: TravelTime)
    returns (updated: seq<Agent>, assignable: seq<Agent>)
    ensures updated == PrepareAgents(agents, v, location, travel)
    ensures assignable == AssignableOf(agents, v, location, travel)
  {
    var earliestTime := v.demand.timeWindow.earliestTime;
    var hardLatestTime := v.demand.timeWindow.hardLatestTime;
    updated := agents;
    assignable := [];
    var k := 0;
    while k < |agents|
      invariant 0 <= k <= |agents| && |updated| == |agents|
      invariant forall m :: 0 <= m < k ==> updated[m] == PrepareAgents(agents, v, location, travel)[m]
      invariant forall m :: k <= m < |agents| ==> updated[m] == agents[m]
      invariant assignable == TreeOf(Eligible(agents[..k], v, location, travel), ByArrivalTime)
    {
      var e := Eligible(agents[..k], v, location, travel);
      assert agents[..k + 1][..k] == agents[..k];
      assert agents[..k + 1][k] == agents[k];
      var a := updated[k];
      var arrivalTime := a.endTime + TravelTimeTo(a, location, travel);
      if arrivalTime <= hardLatestTime {
        a := a.(arrivalTime := Max(arrivalTime, earliestTime));
        assert a == Arrive(agents[k], v, location, travel);
        updated := updated[k := a];
        assert Eligible(agents[..k + 1], v, location, travel) == e + [a];
        assert (e + [a])[..|e|] == e;
        assignable := TreeAdd(assignable, a, ByArrivalTime);
      } else {
        assert Eligible(agents[..k + 1], v, location, travel) == e;
      }
      k := k + 1;
    }
    assert agents[..k] == agents;
  }

  /** Setting arrival times does not change who reaches a location, nor how they arrive there. */
  predicate SameButArrival(a: seq<Agent>, b: seq<Agent>) {
    |a| == |b| && forall k :: 0 <= k < |a| ==> b[k] == a[k].(arrivalTime := b[k].arrivalTime)
  }

  lemma SameButArrivalTransitive(a: seq<Agent>, b: seq<Agent>, c: seq<Agent>)
    requires SameButArrival(a, b) && SameButArrival(b, c)
    ensures SameButArrival(a, c)
  {
  }

  /** Which agents are eligible, and their arrival times, do not depend on the arrival times they had before. */
  lemma {:induction false} EligibleIgnoresArrival(a: seq<Agent>, b: seq<Agent>, v: Task, location: Location, travel: TravelTime)
    requires SameButArrival(a, b)
    ensures Eligible(a, v, location, travel) == Eligible(b, v, location, travel)
    decreases |a|
  {
    if |a| > 0 {
      EligibleIgnoresArrival(a[..|a| - 1], b[..|b| - 1], v, location, travel);
      var x, y := a[|a| - 1], b[|b| - 1];
      assert y == x.(arrivalTime := y.arrivalTime);
      assert ArrivalAt(x, location, travel) == ArrivalAt(y, location, travel);
      assert Arrive(x, v, location, travel) == Arrive(y, v, location, travel);
    }
  }

  /* ---------- one-task solutions ---------- */

  /** `getSingletonSolution(task, location, assignable)`: agents join in arrival order, each step the whole prefix. */
  function StepsOf(v: Task, location: Location, s: seq<Agent>): Growth.Steps {
    Growth.Steps(v, location,
      seq(|s|, i requires 0 <= i < |s| => s[i].arrivalTime),
      seq(|s|, i requires 0 <= i < |s| => s[..i + 1]),
      0)
  }

  /** What a one-task solution needs of the problem: positive values, and a decay on the task that does not divide by zero. */
  ghost predicate Ready(p: Problem, v: Task) {
    PositiveValues(p.value) && DecayDefined(v.demand.timeWindow)
  }

  lemma StepsWellFormed(p: Problem, v: Task, location: Location, s: seq<Agent>)
    requires Ready(p, v)
    ensures Growth.WellFormed(StepsOf(v, location, s), p.value)
  {
    var st := StepsOf(v, location, s);
    forall k | 0 <= k < |st.subs|
      ensures p.value(v, location, st.subs[k]) > 0.0
    {
      assert |st.subs[k]| == k + 1;
    }
  }

  /** The one-task solution at one location, or None when no agent reaches it or the work cannot be done in time. */
  function Candidate(p: Problem, agents: seq<Agent>, v: Task, location: Location): Option<Solution>
    requires Ready(p, v)
  {
    var s := AssignableOf(agents, v, location, p.travel);
    if |s| == 0 then None
    else
      StepsWellFormed(p, v, location, s);
      Growth.GrowAll(StepsOf(v, location, s), p.value)
  }

  /** A candidate is the closed-form outcome of the first step whose work reaches the workload. */
  lemma CandidateOutcome(p: Problem, agents: seq<Agent>, v: Task, location: Location) returns (i: nat)
    requires Ready(p, v) && Candidate(p, agents, v, location).Some?
    ensures var st := StepsOf(v, location, AssignableOf(agents, v, location, p.travel));
      && Growth.WellFormed(st, p.value)
      && Growth.FirstCrossing(st, p.value, i)
      && Growth.EndAt(st, p.value, i) <= v.demand.timeWindow.hardLatestTime
      && Candidate(p, agents, v, location) == Some(Growth.Outcome(st, p.value, i))
  {
    var s := AssignableOf(agents, v, location, p.travel);
    var st := StepsOf(v, location, s);
    StepsWellFormed(p, v, location, s);
    Growth.GrowCharacterisation(st, p.value);
    i :| Growth.FirstCrossing(st, p.value, i) && Growth.EndAt(st, p.value, i) <= v.demand.timeWindow.hardLatestTime;
  }

  /**
   * A candidate does the task at the location with a growing coalition of
   * agents sorted by arrival time, each allocation starting at its newest
   * member's arrival time; it is completed by the hard deadline, and its
   * stored score is the recomputed one.
   */
  lemma CandidateShape(p: Problem, agents: seq<Agent>, v: Task, location: Location)
    requires Ready(p, v) && Candidate(p, agents, v, location).Some?
    ensures var c := Candidate(p, agents, v, location).value;
      var s := AssignableOf(agents, v, location, p.travel);
      var cas := c.coalitionAllocations;
      && c.tasks == {v.id}
      && 0 < |cas| <= |s|
      && (forall k :: 0 <= k < |cas| ==>
            cas[k].task == v && cas[k].location == location && cas[k].coalition == s[..k + 1]
            && cas[k].startTime == Max(s[k].arrivalTime, v.demand.timeWindow.earliestTime))
      && cas[|cas| - 1].endTime <= v.demand.timeWindow.hardLatestTime
      && c.taskCompletionTime == map[v.id := LastWorkingTime(c)]
      && AllScorable(cas) && c.score == ScoreOf(cas)
  {
    var s := AssignableOf(agents, v, location, p.travel);
    var st := StepsOf(v, location, s);
    var i := CandidateOutcome(p, agents, v, location);
    Growth.OutcomeShape(st, p.value, i);
    var cas := Growth.Outcome(st, p.value, i).coalitionAllocations;
    assert cas[i] == Growth.FinalAllocation(st, p.value, i);
    forall k | 0 <= k <= i
      ensures cas[k].startTime == Max(s[k].arrivalTime, v.demand.timeWindow.earliestTime)
    {
      assert cas[k].startTime == Growth.StartAt(st, k);
    }
  }

  /** With a valid window, every allocation of a candidate ends by the task's hard deadline. */
  lemma CandidateWithinDeadline(p: Problem, agents: seq<Agent>, v: Task, location: Location)
    requires Ready(p, v) && Candidate(p, agents, v, location).Some?
    requires TimeWindows.Valid(v.demand.timeWindow)
    ensures var cas := Candidate(p, agents, v, location).value.coalitionAllocations;
      forall k :: 0 <= k < |cas| ==> cas[k].endTime <= v.demand.timeWindow.hardLatestTime
  {
    var s := AssignableOf(agents, v, location, p.travel);
    var st := StepsOf(v, location, s);
    var i := CandidateOutcome(p, agents, v, location);
    Growth.OutcomeShape(st, p.value, i);
    var cas := Growth.Outcome(st, p.value, i).coalitionAllocations;
    assert cas[i] == Growth.FinalAllocation(st, p.value, i);
    forall k | 0 <= k < i
      ensures cas[k].endTime <= v.demand.timeWindow.hardLatestTime
    {
      assert cas[k].endTime == st.arrivals[k + 1];
      AssignableWithinWindow(agents, v, location, p.travel, s[k + 1]);
    }
  }

  /** With a valid window and one of the task's locations, every allocation of a candidate passes the allocation checks. */
  lemma CandidateValid(p: Problem, agents: seq<Agent>, v: Task, location: Location)
    requires Ready(p, v) && Candidate(p, agents, v, location).Some?
    requires TimeWindows.Valid(v.demand.timeWindow) && location in v.demand.possibleLocations
    ensures var cas := Candidate(p, agents, v, location).value.coalitionAllocations;
      forall k :: 0 <= k < |cas| ==> Allocations.Valid(cas[k])
  {
    var s := AssignableOf(agents, v, location, p.travel);
    var st := StepsOf(v, location, s);
    var i := CandidateOutcome(p, agents, v, location);
    AssignableSorted(agents, v, location, p.travel);
    forall k | 0 <= k < |st.arrivals|
      ensures 0 <= st.arrivals[k] && v.demand.timeWindow.earliestTime <= st.arrivals[k]
    {
      AssignableWithinWindow(agents, v, location, p.travel, s[k]);
    }
    Growth.OutcomeAllocationsValid(st, p.value, i);
  }

  /** Whether a candidate replaces the best so far: only a strictly higher score does. */
  predicate Improves(cur: Option<Solution>, best: Option<Solution>) {
    cur.Some? && (best.None? || cur.value.score > best.value.score)
  }

  /**
   * The loop of `getSingletonSolution(task, agents)` over the task's
   * locations from the j-th: each location's assignable computation sets
   * arrival times in the agent array before its candidate is compared.
   */
  function BestFrom(p: Problem, v: Task, agents: seq<Agent>, j: nat, best: Option<Solution>): (Option<Solution>, seq<Agent>)
    requires Ready(p, v) && j <= |v.demand.possibleLocations|
    decreases |v.demand.possibleLocations| - j
  {
    if j == |v.demand.possibleLocations| then (best, agents)
    else
      var location := v.demand.possibleLocations[j];
      var cur := Candidate(p, agents, v, location);
      BestFrom(p, v, PrepareAgents(agents, v, location, p.travel), j + 1, if Improves(cur, best) then cur else best)
  }

  function BestSingleton(p: Problem, v: Task, agents: seq<Agent>): (Option<Solution>, seq<Agent>)
    requires Ready(p, v)
  {
    BestFrom(p, v, agents, 0, None)
  }

  /** A candidate does not depend on the arrival times the agents had before. */
  lemma CandidateIgnoresArrival(p: Problem, a: seq<Agent>, b: seq<Agent>, v: Task, location: Location)
    requires Ready(p, v) && SameButArrival(a, b)
    ensures Candidate(p, a, v, location) == Candidate(p, b, v, location)
  {
    EligibleIgnoresArrival(a, b, v, location, p.travel);
  }

  /** The candidates at the task's locations, from the agents as they were. */
  function CandidatesOf(p: Problem, agents: seq<Agent>, v: Task): (r: seq<Option<Solution>>)
    requires Ready(p, v)
    ensures |r| == |v.demand.possibleLocations|
    ensures forall k :: 0 <= k < |r| ==> r[k] == Candidate(p, agents, v, v.demand.possibleLocations[k])
  {
    seq(|v.demand.possibleLocations|, k requires 0 <= k < |v.demand.possibleLocations| =>
      Candidate(p, agents, v, v.demand.possibleLocations[k]))
  }

  /** The best of cs[..j]: the first with the highest score, or None when there is none. */
  ghost predicate FirstBest(cs: seq<Option<Solution>>, j: nat, best: Option<Solution>)
    requires j <= |cs|
  {
    && (best.None? <==> forall k :: 0 <= k < j ==> cs[k].None?)
    && (best.Some? ==>
          exists m :: 0 <= m < j && best == cs[m] &&
            forall k :: 0 <= k < j && cs[k].Some? ==>
              cs[k].value.score <= best.value.score && (k < m ==> cs[k].value.score < best.value.score))
  }

  /** Comparing cs[j] with the best of those before it by `Improves` gives the best of those up to j. */
  lemma FirstBestStep(cs: seq<Option<Solution>>, j: nat, best: Option<Solution>)
    requires j < |cs| && FirstBest(cs, j, best)
    ensures FirstBest(cs, j + 1, if Improves(cs[j], best) then cs[j] else best)
  {
    if Improves(cs[j], best) {
      FirstBestImproved(cs, j, best);
    } else if cs[j].Some? {
      FirstBestKept(cs, j, best);
    } else {
      FirstBestNone(cs, j, best);
    }
  }

  lemma FirstBestImproved(cs: seq<Option<Solution>>, j: nat, best: Option<Solution>)
    requires j < |cs| && FirstBest(cs, j, best) && Improves(cs[j], best)
    ensures FirstBest(cs, j + 1, cs[j])
  {
    var cur := cs[j];
    forall k | 0 <= k < j && cs[k].Some?
      ensures cs[k].value.score < cur.value.score
    {
    }
    assert 0 <= j < j + 1 && cur == cs[j];
  }

  lemma FirstBestKept(cs: seq<Option<Solution>>, j: nat, best: Option<Solution>)
    requires j < |cs| && FirstBest(cs, j, best) && !Improves(cs[j], best) && cs[j].Some?
    ensures FirstBest(cs, j + 1, best)
  {
    var m :| 0 <= m < j && best == cs[m] &&
      forall k :: 0 <= k < j && cs[k].Some? ==>
        cs[k].value.score <= best.value.score && (k < m ==> cs[k].value.score < best.value.score);
    assert 0 <= m < j + 1 && best == cs[m];
  }

  lemma FirstBestNone(cs: seq<Option<Solution>>, j: nat, best: Option<Solution>)
    requires j < |cs| && FirstBest(cs, j, best) && cs[j].None?
    ensures FirstBest(cs, j + 1, best)
  {
    if best.Some? {
      var m :| 0 <= m < j && best == cs[m] &&
        forall k :: 0 <= k < j && cs[k].Some? ==>
          cs[k].value.score <= best.value.score && (k < m ==> cs[k].value.score < best.value.score);
      assert 0 <= m < j + 1 && best == cs[m];
    }
  }

  /** One unfolding of the loop over locations. */
  lemma BestFromStep(p: Problem, v: Task, agents: seq<Agent>, j: nat, best: Option<Solution>)
    requires Ready(p, v) && j < |v.demand.possibleLocations|
    ensures var cur := Candidate(p, agents, v, v.demand.possibleLocations[j]);
      BestFrom(p, v, agents, j, best) ==
        BestFrom(p, v, PrepareAgents(agents, v, v.demand.possibleLocations[j], p.travel), j + 1,
          if Improves(cur, best) then cur else best)
  {
  }

  /** One step of the loop over locations: the best so far stays the best, and only arrival times change. */
  lemma BestFromNext(p: Problem, agents0: seq<Agent>, v: Task, agents: seq<Agent>, j: nat, best: Option<Solution>)
    returns (agents': seq<Agent>, best': Option<Solution>)
    requires Ready(p, v) && j < |v.demand.possibleLocations|
    requires SameButArrival(agents0, agents) && FirstBest(CandidatesOf(p, agents0, v), j, best)
    ensures SameButArrival(agents0, agents') && FirstBest(CandidatesOf(p, agents0, v), j + 1, best')
    ensures BestFrom(p, v, agents, j, best) == BestFrom(p, v, agents', j + 1, best')
  {
    var cs := CandidatesOf(p, agents0, v);
    var location := v.demand.possibleLocations[j];
    var cur := Candidate(p, agents, v, location);
    CandidateIgnoresArrival(p, agents0, agents, v, location);
    assert cur == cs[j];
    FirstBestStep(cs, j, best);
    best' := if Improves(cur, best) then cur else best;
    agents' := PrepareAgents(agents, v, location, p.travel);
    SameButArrivalTransitive(agents0, agents, agents');
    BestFromStep(p, v, agents, j, best);
  }

  /** After the last location the loop returns what it has. */
  lemma BestFromDone(p: Problem, v: Task, agents: seq<Agent>, j: nat, best: Option<Solution>)
    requires Ready(p, v) && j == |v.demand.possibleLocations|
    ensures BestFrom(p, v, agents, j, best) == (best, agents)
  {
  }

  /**
   * The best one-task solution for a task is None exactly when no location
   * has a candidate; otherwise it is the candidate of a location scoring at
   * least as high as every other and strictly higher than those before it.
   * Only arrival times change in the agent array.
   */
  lemma BestSingletonIsBest(p: Problem, v: Task, agents: seq<Agent>)
    requires Ready(p, v)
    ensures FirstBest(CandidatesOf(p, agents, v), |v.demand.possibleLocations|, BestSingleton(p, v, agents).0)
    ensures SameButArrival(agents, BestSingleton(p, v, agents).1)
  {
    var cs := CandidatesOf(p, agents, v);
    var j := 0;
    var current, best := agents, None;
    while j < |v.demand.possibleLocations|
      invariant j <= |v.demand.possibleLocations|
      invariant SameButArrival(agents, current) && FirstBest(cs, j, best)
      invariant BestFrom(p, v, current, j, best) == BestSingleton(p, v, agents)
    {
      current, best := BestFromNext(p, agents, v, current, j, best);
      j := j + 1;
    }
    BestFromDone(p, v, current, j, best);
  }


  /** `getSingletonSolution(task, agents)`: the loop over the task's locations. */
  method GetSingletonSolution(p: Problem, v: Task, agents: seq<Agent>) returns (best: Option<Solution>, updated: seq<Agent>)
    requires Ready(p, v)
    ensures (best, updated) == BestSingleton(p, v, agents)
  {
    var locations := v.demand.possibleLocations;
    best := None;
    updated := agents;
    var j := 0;
    while j < |locations|
      invariant 0 <= j <= |locations|
      invariant BestFrom(p, v, updated, j, best) == BestSingleton(p, v, agents)
      invariant best.Some? ==>
        AllScorable(best.value.coalitionAllocations) && best.value.score == ScoreOf(best.value.coalitionAllocations)
    {
      best, updated := LocationTurn(p, v, updated, j, best);
      j := j + 1;
    }
  }

  /** The body of the loop over locations: the candidate at location j replaces the best only when it scores strictly higher. */
  method LocationTurn(p: Problem, v: Task, agents: seq<Agent>, j: nat, best: Option<Solution>)
    returns (best': Option<Solution>, next: seq<Agent>)
    requires Ready(p, v) && j < |v.demand.possibleLocations|
    requires best.Some? ==>
      AllScorable(best.value.coalitionAllocations) && best.value.score == ScoreOf(best.value.coalitionAllocations)
    ensures BestFrom(p, v, agents, j, best) == BestFrom(p, v, next, j + 1, best')
    ensures best'.Some? ==>
      AllScorable(best'.value.coalitionAllocations) && best'.value.score == ScoreOf(best'.value.coalitionAllocations)
  {
    BestFromStep(p, v, agents, j, best);
    var location := v.demand.possibleLocations[j];
    var assignable;
    next, assignable := GetAssignable(v, location, agents, p.travel);
    best' := best;
    if |assignable| > 0 {
      StepsWellFormed(p, v, location, assignable);
      var cur := Growth.GrowCoalition(StepsOf(v, location, assignable), p.value);
      if cur.Some? {
        CandidateShape(p, agents, v, location);
        if best.None? {
          best' := cur;
        } else {
          var curScore, cur' := GetScore(cur.value, true);
          var bestScore, bestAgain := GetScore(best.value, true);
          if curScore > bestScore {
            best' := Some(cur');
          } else {
            best' := Some(bestAgain);
          }
        }
      }
    }
  }

  /** Two results that are each the first best of the same candidates are the same. */
  lemma FirstBestUnique(cs: seq<Option<Solution>>, n: nat, b1: Option<Solution>, b2: Option<Solution>)
    requires n <= |cs| && FirstBest(cs, n, b1) && FirstBest(cs, n, b2)
    ensures b1 == b2
  {
    if b1.Some? && b2.Some? {
      var m1 :| 0 <= m1 < n && b1 == cs[m1] &&
        forall k :: 0 <= k < n && cs[k].Some? ==>
          cs[k].value.score <= b1.value.score && (k < m1 ==> cs[k].value.score < b1.value.score);
      var m2 :| 0 <= m2 < n && b2 == cs[m2] &&
        forall k :: 0 <= k < n && cs[k].Some? ==>
          cs[k].value.score <= b2.value.score && (k < m2 ==> cs[k].value.score < b2.value.score);
      assert m1 == m2;
    }
  }

  /** A task's best one-task solution does not depend on the arrival times the agents had before. */
  lemma BestSingletonIgnoresArrival(p: Problem, v: Task, a: seq<Agent>, b: seq<Agent>)
    requires Ready(p, v) && SameButArrival(a, b)
    ensures BestSingleton(p, v, a).0 == BestSingleton(p, v, b).0
  {
    forall k | 0 <= k < |v.demand.possibleLocations|
      ensures CandidatesOf(p, a, v)[k] == CandidatesOf(p, b, v)[k]
    {
      CandidateIgnoresArrival(p, a, b, v, v.demand.possibleLocations[k]);
    }
    assert CandidatesOf(p, a, v) == CandidatesOf(p, b, v);
    BestSingletonIsBest(p, v, a);
    BestSingletonIsBest(p, v, b);
    FirstBestUnique(CandidatesOf(p, a, v), |v.demand.possibleLocations|, BestSingleton(p, v, a).0, BestSingleton(p, v, b).0);
  }

  /* ---------- the rounds of solve ---------- */

  /** The chosen task, as a position in the task array, and its one-task solution. */
  datatype Pick = Pick(index: int, solution: Solution)

  /** Every task can be given a one-task solution. */
  ghost predicate AllReady(p: Problem, tasks: seq<Task>) {
    PositiveValues(p.value) && forall k :: 0 <= k < |tasks| ==> DecayDefined(tasks[k].demand.timeWindow)
  }

  predicate InRange(taskOrder: seq<int>, n: int) {
    forall j :: 0 <= j < |taskOrder| ==> 0 <= taskOrder[j] < n
  }

  /** Whether a task's best one-task solution replaces the best so far: only a strictly higher stored score does. */
  predicate Beats(cur: Option<Solution>, best: Option<Pick>) {
    cur.Some? && (best.None? || cur.value.score > best.value.solution.score)
  }

  /**
   * The inner loop of `solve` from the j-th element of the task set:
   * completed tasks are skipped; each other task's best one-task solution
   * is computed, which sets arrival times in the agent array.
   */
  function PickFrom(p: Problem, tasks: seq<Task>, taskOrder: seq<int>, agents: seq<Agent>, j: nat, best: Option<Pick>)
    : (Option<Pick>, seq<Agent>)
    requires AllReady(p, tasks) && InRange(taskOrder, |tasks|) && j <= |taskOrder|
    decreases |taskOrder| - j
  {
    if j == |taskOrder| then (best, agents)
    else
      var v := tasks[taskOrder[j]];
      if v.status == COMPLETED then PickFrom(p, tasks, taskOrder, agents, j + 1, best)
      else
        var r := BestSingleton(p, v, agents);
        PickFrom(p, tasks, taskOrder, r.1, j + 1, if Beats(r.0, best) then Some(Pick(taskOrder[j], r.0.value)) else best)
  }

  /** What each element of the task set offers the round: nothing when completed, else its best one-task solution. */
  function Offers(p: Problem, tasks: seq<Task>, taskOrder: seq<int>, agents: seq<Agent>): (r: seq<Option<Solution>>)
    requires AllReady(p, tasks) && InRange(taskOrder, |tasks|)
    ensures |r| == |taskOrder|
  {
    seq(|taskOrder|, j requires 0 <= j < |taskOrder| =>
      if tasks[taskOrder[j]].status == COMPLETED then None else BestSingleton(p, tasks[taskOrder[j]], agents).0)
  }

  function Picked(best: Option<Pick>): Option<Solution> {
    if best.None? then None else Some(best.value.solution)
  }

  /** The pick so far is an uncompleted task among the first j, with its own best one-task solution. */
  ghost predicate PickedFrom(p: Problem, tasks: seq<Task>, taskOrder: seq<int>, agents: seq<Agent>, j: nat, best: Option<Pick>)
    requires AllReady(p, tasks) && InRange(taskOrder, |tasks|) && j <= |taskOrder|
  {
    best.Some? ==>
      && (exists m :: 0 <= m < j && taskOrder[m] == best.value.index)
      && 0 <= best.value.index < |tasks|
      && tasks[best.value.index].status != COMPLETED
      && BestSingleton(p, tasks[best.value.index], agents).0 == Some(best.value.solution)
  }

  /** One unfolding of the inner loop of `solve`. */
  lemma PickFromStep(p: Problem, tasks: seq<Task>, taskOrder: seq<int>, agents: seq<Agent>, j: nat, best: Option<Pick>)
    requires AllReady(p, tasks) && InRange(taskOrder, |tasks|) && j < |taskOrder|
    ensures var v := tasks[taskOrder[j]];
      PickFrom(p, tasks, taskOrder, agents, j, best) ==
        if v.status == COMPLETED then PickFrom(p, tasks, taskOrder, agents, j + 1, best)
        else
          var r := BestSingleton(p, v, agents);
          PickFrom(p, tasks, taskOrder, r.1, j + 1, if Beats(r.0, best) then Some(Pick(taskOrder[j], r.0.value)) else best)
  {
  }

  /** One step of the inner loop of `solve` keeps the pick the first best offer so far. */
  lemma PickFromNext(p: Problem, tasks: seq<Task>, taskOrder: seq<int>, agents0: seq<Agent>, agents: seq<Agent>, j: nat, best: Option<Pick>)
    returns (agents': seq<Agent>, best': Option<Pick>)
    requires AllReady(p, tasks) && InRange(taskOrder, |tasks|) && j < |taskOrder|
    requires SameButArrival(agents0, agents)
    requires FirstBest(Offers(p, tasks, taskOrder, agents0), j, Picked(best))
    requires PickedFrom(p, tasks, taskOrder, agents0, j, best)
    ensures SameButArrival(agents0, agents')
    ensures FirstBest(Offers(p, tasks, taskOrder, agents0), j + 1, Picked(best'))
    ensures PickedFrom(p, tasks, taskOrder, agents0, j + 1, best')
    ensures PickFrom(p, tasks, taskOrder, agents, j, best) == PickFrom(p, tasks, taskOrder, agents', j + 1, best')
  {
    var offers := Offers(p, tasks, taskOrder, agents0);
    var v := tasks[taskOrder[j]];
    PickFromStep(p, tasks, taskOrder, agents, j, best);
    FirstBestStep(offers, j, Picked(best));
    if v.status == COMPLETED {
      agents', best' := agents, best;
      assert offers[j] == None;
    } else {
      var r := BestSingleton(p, v, agents);
      BestSingletonIsBest(p, v, agents);
      BestSingletonIgnoresArrival(p, v, agents0, agents);
      assert offers[j] == r.0;
      SameButArrivalTransitive(agents0, agents, r.1);
      agents' := r.1;
      best' := if Beats(r.0, best) then Some(Pick(taskOrder[j], r.0.value)) else best;
      assert Picked(best') == if Improves(offers[j], Picked(best)) then offers[j] else Picked(best);
    }
  }

  lemma PickFromDone(p: Problem, tasks: seq<Task>, taskOrder: seq<int>, agents: seq<Agent>, j: nat, best: Option<Pick>)
    requires AllReady(p, tasks) && InRange(taskOrder, |tasks|) && j == |taskOrder|
    ensures PickFrom(p, tasks, taskOrder, agents, j, best) == (best, agents)
  {
  }

  /**
   * The greedy choice of a round: the pick is the first element of the task
   * set whose offer has the highest stored score, or None when no
   * uncompleted task has a one-task solution; the picked task is
   * uncompleted and gets its own best one-task solution, which depends only
   * on the agents' positions and working times at the start of the round.
   */
  lemma PickIsGreedy(p: Problem, tasks: seq<Task>, taskOrder: seq<int>, agents: seq<Agent>)
    requires AllReady(p, tasks) && InRange(taskOrder, |tasks|)
    ensures var r := PickFrom(p, tasks, taskOrder, agents, 0, None);
      && FirstBest(Offers(p, tasks, taskOrder, agents), |taskOrder|, Picked(r.0))
      && PickedFrom(p, tasks, taskOrder, agents, |taskOrder|, r.0)
      && SameButArrival(agents, r.1)
  {
    var j := 0;
    var current: seq<Agent>, best: Option<Pick> := agents, None;
    while j < |taskOrder|
      invariant j <= |taskOrder|
      invariant SameButArrival(agents, current)
      invariant FirstBest(Offers(p, tasks, taskOrder, agents), j, Picked(best))
      invariant PickedFrom(p, tasks, taskOrder, agents, j, best)
      invariant PickFrom(p, tasks, taskOrder, current, j, best) == PickFrom(p, tasks, taskOrder, agents, 0, None)
    {
      current, best := PickFromNext(p, tasks, taskOrder, agents, current, j, best);
      j := j + 1;
    }
    PickFromDone(p, tasks, taskOrder, current, j, best);
  }

  /** The inner loop of `solve`: the best one-task solution over the uncompleted tasks of the task set. */
  method PickBest(p: Problem, tasks: seq<Task>, taskOrder: seq<int>, agents: seq<Agent>)
    returns (best: Option<Pick>, updated: seq<Agent>)
    requires AllReady(p, tasks) && InRange(taskOrder, |tasks|)
    ensures (best, updated) == PickFrom(p, tasks, taskOrder, agents, 0, None)
  {
    best := None;
    updated := agents;
    var j := 0;
    while j < |taskOrder|
      invariant 0 <= j <= |taskOrder|
      invariant PickFrom(p, tasks, taskOrder, updated, j, best) == PickFrom(p, tasks, taskOrder, agents, 0, None)
    {
      PickFromStep(p, tasks, taskOrder, updated, j, best);
      var v := tasks[taskOrder[j]];
      if v.status != COMPLETED {
        var cur, next := GetSingletonSolution(p, v, updated);
        if cur.Some? {
          if best.None? {
            best := Some(Pick(taskOrder[j], cur.value));
          } else {
            var curScore, _ := GetScore(cur.value, false);
            var bestScore, _ := GetScore(best.value.solution, false);
            if curScore > bestScore {
              best := Some(Pick(taskOrder[j], cur.value));
            }
          }
        }
        updated := next;
      }
      j := j + 1;
    }
  }

  /** The picked solution is its task's best one-task solution: it covers that task alone, with valid allocations ending by the hard deadline. */
  lemma SingletonShape(p: Problem, v: Task, agents: seq<Agent>)
    requires Ready(p, v) && BestSingleton(p, v, agents).0.Some?
    ensures var c := BestSingleton(p, v, agents).0.value;
      var cas := c.coalitionAllocations;
      && c.tasks == {v.id}
      && |cas| > 0
      && (forall k :: 0 <= k < |cas| ==> cas[k].task == v && cas[k].location in v.demand.possibleLocations)
      && AllScorable(cas) && c.score == ScoreOf(cas)
      && c.taskCompletionTime == map[v.id := LastWorkingTime(c)]
      && (TimeWindows.Valid(v.demand.timeWindow) ==>
            forall k :: 0 <= k < |cas| ==> Allocations.Valid(cas[k]) && cas[k].endTime <= v.demand.timeWindow.hardLatestTime)
  {
    var locs := v.demand.possibleLocations;
    var cs := CandidatesOf(p, agents, v);
    BestSingletonIsBest(p, v, agents);
    var m :| 0 <= m < |locs| && BestSingleton(p, v, agents).0 == cs[m];
    CandidateShape(p, agents, v, locs[m]);
    if TimeWindows.Valid(v.demand.timeWindow) {
      CandidateWithinDeadline(p, agents, v, locs[m]);
      CandidateValid(p, agents, v, locs[m]);
    }
  }

  /* ---------- updateAgentStatus ---------- */

  /** The agents with an id in `ids` have worked until `endTime` and are at `location`. */
  function MoveTo(agents: seq<Agent>, ids: set<int>, endTime: int, location: Location): (r: seq<Agent>)
    ensures |r| == |agents|
  {
    seq(|agents|, k requires 0 <= k < |agents| =>
      if agents[k].id in ids then agents[k].(endTime := endTime, location := location) else agents[k])
  }

  /** updateAgentStatus: the coalition of the last allocation, if any, is moved to its location and end time. */
  function UpdateAgentStatusOf(agents: seq<Agent>, s: Option<Solution>): (r: seq<Agent>)
    ensures |r| == |agents|
  {
    if s.None? || |s.value.coalitionAllocations| == 0 then agents
    else
      var last := s.value.coalitionAllocations[|s.value.coalitionAllocations| - 1];
      MoveTo(agents, IdSet(last.coalition), last.endTime, last.location)
  }

  /**
   * Only the members of the last allocation's coalition change, and only
   * their end time and location; every other agent keeps its state.
   */
  lemma UpdateAgentStatusEffect(agents: seq<Agent>, s: Option<Solution>)
    ensures var r := UpdateAgentStatusOf(agents, s);
      forall k :: 0 <= k < |agents| ==>
        && r[k] == agents[k].(endTime := r[k].endTime, location := r[k].location)
        && if s.Some? && |s.value.coalitionAllocations| > 0 &&
              agents[k].id in IdSet(s.value.coalitionAllocations[|s.value.coalitionAllocations| - 1].coalition)
           then
             var last := s.value.coalitionAllocations[|s.value.coalitionAllocations| - 1];
             r[k].endTime == last.endTime && r[k].location == last.location
           else r[k] == agents[k]
  {
  }

  lemma MoveToAgain(agents: seq<Agent>, ids: set<int>, x: int, endTime: int, location: Location)
    ensures MoveTo(MoveTo(agents, ids, endTime, location), {x}, endTime, location) == MoveTo(agents, ids + {x}, endTime, location)
  {
  }

  /** The loop of updateAgentStatus over the members of the last coalition. */
  method UpdateAgentStatus(agents: seq<Agent>, s: Option<Solution>) returns (updated: seq<Agent>)
    ensures updated == UpdateAgentStatusOf(agents, s)
  {
    updated := agents;
    if s.Some? && |s.value.coalitionAllocations| > 0 {
      var last := s.value.coalitionAllocations[|s.value.coalitionAllocations| - 1];
      var k := 0;
      while k < |last.coalition|
        invariant 0 <= k <= |last.coalition|
        invariant updated == MoveTo(agents, IdSet(last.coalition[..k]), last.endTime, last.location)
      {
        var a := last.coalition[k];
        MoveToAgain(agents, IdSet(last.coalition[..k]), a.id, last.endTime, last.location);
        assert IdSet(last.coalition[..k + 1]) == IdSet(last.coalition[..k]) + {a.id} by {
          assert last.coalition[..k + 1] == last.coalition[..k] + [a];
        }
        updated := MoveTo(updated, {a.id}, last.endTime, last.location);
        k := k + 1;
      }
      assert last.coalition[..k] == last.coalition;
    }
  }

  /* ---------- the rounds of solve ---------- */

  /** The state `solve` changes: the tasks' status, the agents, the recorded scores, and its two result sets. */
  datatype BntState = BntState(
    tasks: seq<Task>,
    agents: seq<Agent>,
    singletonScores: map<int, real>,
    completed: set<int>,
    allocations: seq<CoalitionAllocation>)

  function Start(tasks: seq<Task>, agents: seq<Agent>, singletonScores: map<int, real>): BntState {
    BntState(tasks, agents, singletonScores, {}, [])
  }

  /** The tasks with an id in `ids` become COMPLETED; nothing else about any task changes. */
  function MarkCompleted(tasks: seq<Task>, ids: set<int>): (r: seq<Task>)
    ensures |r| == |tasks|
    ensures forall k :: 0 <= k < |tasks| ==> r[k] == tasks[k].(status := r[k].status)
  {
    seq(|tasks|, k requires 0 <= k < |tasks| =>
      if tasks[k].id in ids then tasks[k].(status := COMPLETED) else tasks[k])
  }

  /** Two task arrays that differ only in the tasks' status. */
  predicate SameButStatus(a: seq<Task>, b: seq<Task>) {
    |a| == |b| && forall k :: 0 <= k < |a| ==> b[k] == a[k].(status := b[k].status)
  }

  lemma AllReadyKept(p: Problem, a: seq<Task>, b: seq<Task>)
    requires AllReady(p, a) && SameButStatus(a, b)
    ensures AllReady(p, b)
  {
    forall k | 0 <= k < |b|
      ensures DecayDefined(b[k].demand.timeWindow)
    {
      assert b[k].demand == a[k].demand;
    }
  }

  /**
   * One round of `solve`: pick the best uncompleted task; when there is
   * one, record its score, move its last coalition, mark it completed and
   * add its allocations. The arrival times set while picking stay either way.
   */
  function Round(p: Problem, taskOrder: seq<int>, st: BntState): (r: (Option<Pick>, BntState))
    requires AllReady(p, st.tasks) && InRange(taskOrder, |st.tasks|)
    ensures SameButStatus(st.tasks, r.1.tasks)
  {
    var picked := PickFrom(p, st.tasks, taskOrder, st.agents, 0, None);
    if picked.0.None? then (None, st.(agents := picked.1))
    else
      PickIsGreedy(p, st.tasks, taskOrder, st.agents);
      var s := picked.0.value.solution;
      var id := st.tasks[picked.0.value.index].id;
      (picked.0, BntState(
        MarkCompleted(st.tasks, s.tasks),
        UpdateAgentStatusOf(picked.1, Some(s)),
        st.singletonScores[id := s.score],
        st.completed + s.tasks,
        st.allocations + s.coalitionAllocations))
  }

  /** The outer loop of `solve` from round i: at most one round per task, stopping at the first round with no pick. */
  function Rounds(p: Problem, taskOrder: seq<int>, st: BntState, i: nat): (r: BntState)
    requires AllReady(p, st.tasks) && InRange(taskOrder, |st.tasks|)
    ensures SameButStatus(st.tasks, r.tasks)
    decreases |st.tasks| - i
  {
    if i >= |st.tasks| then st
    else
      var r := Round(p, taskOrder, st);
      if r.0.None? then r.1
      else
        AllReadyKept(p, st.tasks, r.1.tasks);
        Rounds(p, taskOrder, r.1, i + 1)
  }

  /** The ids of a task array. */
  function TaskIds(tasks: seq<Task>): set<int> {
    set k | 0 <= k < |tasks| :: tasks[k].id
  }

  /**
   * What `solve` keeps true from the tasks t0 it starts from: a task is
   * COMPLETED exactly when it already was or its id has been completed;
   * completed ids are task ids with a recorded score; every allocation is
   * for a completed task, can be scored, and (for a consistent window) is
   * valid and ends by the task's hard deadline.
   */
  ghost predicate Consistent(t0: seq<Task>, st: BntState) {
    && SameButStatus(t0, st.tasks)
    && (forall k :: 0 <= k < |t0| ==>
          (st.tasks[k].status == COMPLETED <==> t0[k].status == COMPLETED || t0[k].id in st.completed))
    && st.completed <= TaskIds(t0)
    && (forall x :: x in st.completed ==> x in st.singletonScores)
    && (forall j :: 0 <= j < |st.allocations| ==> st.allocations[j].task.id in st.completed)
    && AllScorable(st.allocations)
    && (forall j :: 0 <= j < |st.allocations| ==>
          var ca := st.allocations[j];
          TimeWindows.Valid(ca.task.demand.timeWindow) ==>
            Allocations.Valid(ca) && ca.endTime <= ca.task.demand.timeWindow.hardLatestTime)
  }

  /** `solve` starts consistent. */
  lemma StartConsistent(tasks: seq<Task>, agents: seq<Agent>, singletonScores: map<int, real>)
    ensures Consistent(tasks, Start(tasks, agents, singletonScores))
  {
  }

  /**
   * A round that picks commits exactly one task that was not completed: the
   * picked task's best one-task solution, for that task alone; it is marked
   * COMPLETED (and no other task changes status), its id joins the completed
   * set and its score is recorded under its id.
   */
  lemma RoundCommits(p: Problem, taskOrder: seq<int>, t0: seq<Task>, st: BntState)
    requires AllReady(p, st.tasks) && InRange(taskOrder, |st.tasks|) && Consistent(t0, st)
    requires Round(p, taskOrder, st).0.Some?
    ensures var r := Round(p, taskOrder, st);
      var k := r.0.value.index;
      0 <= k < |st.tasks| &&
      var v := st.tasks[k];
      var s := r.0.value.solution;
      && (exists j :: 0 <= j < |taskOrder| && taskOrder[j] == k)
      && v.status != COMPLETED && v.id !in st.completed
      && BestSingleton(p, v, st.agents).0 == Some(s)
      && s.tasks == {v.id}
      && r.1.completed == st.completed + {v.id}
      && r.1.singletonScores == st.singletonScores[v.id := s.score]
      && r.1.allocations == st.allocations + s.coalitionAllocations
      && (forall m :: 0 <= m < |st.tasks| ==>
            (r.1.tasks[m].status == COMPLETED <==> st.tasks[m].status == COMPLETED || st.tasks[m].id == v.id))
  {
    PickIsGreedy(p, st.tasks, taskOrder, st.agents);
    var r := Round(p, taskOrder, st);
    var v := st.tasks[r.0.value.index];
    SingletonShape(p, v, st.agents);
    assert v.status != COMPLETED;
  }

  /** A committed round adds the picked solution's score to the score of the allocations so far. */
  lemma RoundScore(p: Problem, taskOrder: seq<int>, st: BntState)
    requires AllReady(p, st.tasks) && InRange(taskOrder, |st.tasks|) && AllScorable(st.allocations)
    requires Round(p, taskOrder, st).0.Some?
    ensures var r := Round(p, taskOrder, st);
      && AllScorable(r.1.allocations)
      && ScoreOf(r.1.allocations) == ScoreOf(st.allocations) + r.0.value.solution.score
  {
    PickIsGreedy(p, st.tasks, taskOrder, st.agents);
    var r := Round(p, taskOrder, st);
    var v := st.tasks[r.0.value.index];
    SingletonShape(p, v, st.agents);
    ScoreOfAppend(st.allocations, r.0.value.solution.coalitionAllocations);
  }

  /**
   * A round that picks nothing changes only the agents' arrival times, and
   * then no uncompleted task of the task set has a one-task solution.
   */
  lemma RoundStops(p: Problem, taskOrder: seq<int>, st: BntState)
    requires AllReady(p, st.tasks) && InRange(taskOrder, |st.tasks|)
    requires Round(p, taskOrder, st).0.None?
    ensures var r := Round(p, taskOrder, st);
      && r.1 == st.(agents := r.1.agents)
      && SameButArrival(st.agents, r.1.agents)
      && forall j :: 0 <= j < |taskOrder| ==>
           st.tasks[taskOrder[j]].status == COMPLETED || BestSingleton(p, st.tasks[taskOrder[j]], st.agents).0.None?
  {
    PickIsGreedy(p, st.tasks, taskOrder, st.agents);
    var offers := Offers(p, st.tasks, taskOrder, st.agents);
    forall j | 0 <= j < |taskOrder|
      ensures st.tasks[taskOrder[j]].status == COMPLETED || BestSingleton(p, st.tasks[taskOrder[j]], st.agents).0.None?
    {
      assert offers[j].None?;
    }
  }

  /**
   * After a committed round the last coalition of the picked solution has
   * worked until the task's completion time at a location of the task; all
   * other agents only had their arrival times set.
   */
  lemma RoundMovesCoalition(p: Problem, taskOrder: seq<int>, st: BntState)
    requires AllReady(p, st.tasks) && InRange(taskOrder, |st.tasks|)
    requires Round(p, taskOrder, st).0.Some?
    ensures var r := Round(p, taskOrder, st);
      var k := r.0.value.index;
      0 <= k < |st.tasks| &&
      var v := st.tasks[k];
      var s := r.0.value.solution;
      |s.coalitionAllocations| > 0 && v.id in s.taskCompletionTime &&
      var last := s.coalitionAllocations[|s.coalitionAllocations| - 1];
      && |r.1.agents| == |st.agents|
      && forall m :: 0 <= m < |st.agents| ==>
           && r.1.agents[m].id == st.agents[m].id
           && (st.agents[m].id in IdSet(last.coalition) ==>
                 r.1.agents[m].endTime == s.taskCompletionTime[v.id] && r.1.agents[m].location == last.location
                 && last.location in v.demand.possibleLocations)
           && (st.agents[m].id !in IdSet(last.coalition) ==>
                 r.1.agents[m] == st.agents[m].(arrivalTime := r.1.agents[m].arrivalTime))
  {
    PickIsGreedy(p, st.tasks, taskOrder, st.agents);
    var r := Round(p, taskOrder, st);
    var picked := PickFrom(p, st.tasks, taskOrder, st.agents, 0, None);
    var v := st.tasks[r.0.value.index];
    var s := r.0.value.solution;
    SingletonShape(p, v, st.agents);
    assert r.1.agents == UpdateAgentStatusOf(picked.1, Some(s));
    CommitMovesCoalition(st.agents, picked.1, v, s);
  }

  /** Moving the last coalition of a one-task solution to its end, from agents that differ only in arrival times. */
  lemma CommitMovesCoalition(agents0: seq<Agent>, agents: seq<Agent>, v: Task, s: Solution)
    requires SameButArrival(agents0, agents)
    requires |s.coalitionAllocations| > 0 && s.taskCompletionTime == map[v.id := LastWorkingTime(s)]
    requires forall k :: 0 <= k < |s.coalitionAllocations| ==> s.coalitionAllocations[k].location in v.demand.possibleLocations
    ensures var r := UpdateAgentStatusOf(agents, Some(s));
      var last := s.coalitionAllocations[|s.coalitionAllocations| - 1];
      && |r| == |agents0|
      && forall m :: 0 <= m < |agents0| ==>
           && r[m].id == agents0[m].id
           && (agents0[m].id in IdSet(last.coalition) ==>
                 r[m].endTime == s.taskCompletionTime[v.id] && r[m].location == last.location
                 && last.location in v.demand.possibleLocations)
           && (agents0[m].id !in IdSet(last.coalition) ==> r[m] == agents0[m].(arrivalTime := r[m].arrivalTime))
  {
    UpdateAgentStatusEffect(agents, Some(s));
    var n := |s.coalitionAllocations| - 1;
    assert s.coalitionAllocations[n].location in v.demand.possibleLocations;
  }

  /** Committing one task's one-task solution, with its status and records, keeps `solve` consistent. */
  lemma CommitConsistent(t0: seq<Task>, st: BntState, next: BntState, v: Task, s: Solution)
    requires Consistent(t0, st) && SameButStatus(t0, next.tasks) && v.id in TaskIds(t0)
    requires forall k :: 0 <= k < |t0| ==>
      (next.tasks[k].status == COMPLETED <==> st.tasks[k].status == COMPLETED || st.tasks[k].id == v.id)
    requires next.completed == st.completed + {v.id} && next.singletonScores == st.singletonScores[v.id := s.score]
    requires next.allocations == st.allocations + s.coalitionAllocations && AllScorable(next.allocations)
    requires forall k :: 0 <= k < |s.coalitionAllocations| ==> s.coalitionAllocations[k].task == v
    requires TimeWindows.Valid(v.demand.timeWindow) ==>
      forall k :: 0 <= k < |s.coalitionAllocations| ==>
        Allocations.Valid(s.coalitionAllocations[k]) && s.coalitionAllocations[k].endTime <= v.demand.timeWindow.hardLatestTime
    ensures Consistent(t0, next)
  {
    var cas := next.allocations;
    forall j | 0 <= j < |cas|
      ensures cas[j].task.id in next.completed
      ensures TimeWindows.Valid(cas[j].task.demand.timeWindow) ==>
        Allocations.Valid(cas[j]) && cas[j].endTime <= cas[j].task.demand.timeWindow.hardLatestTime
    {
      if j >= |st.allocations| {
        assert cas[j] == s.coalitionAllocations[j - |st.allocations|];
      } else {
        assert cas[j] == st.allocations[j];
      }
    }
  }

  /** Every round keeps `solve` consistent. */
  lemma RoundConsistent(p: Problem, taskOrder: seq<int>, t0: seq<Task>, st: BntState)
    requires AllReady(p, st.tasks) && InRange(taskOrder, |st.tasks|) && Consistent(t0, st)
    ensures Consistent(t0, Round(p, taskOrder, st).1)
  {
    var r := Round(p, taskOrder, st);
    if r.0.Some? {
      RoundCommits(p, taskOrder, t0, st);
      RoundScore(p, taskOrder, st);
      var v := st.tasks[r.0.value.index];
      var s := r.0.value.solution;
      SingletonShape(p, v, st.agents);
      assert v.id in TaskIds(t0) by {
        assert t0[r.0.value.index].id == v.id;
      }
      CommitConsistent(t0, st, r.1, v, s);
    }
  }

  /** `solve` stays consistent through all its rounds. */
  lemma {:induction false} RoundsConsistent(p: Problem, taskOrder: seq<int>, t0: seq<Task>, st: BntState, i: nat)
    requires AllReady(p, st.tasks) && InRange(taskOrder, |st.tasks|) && Consistent(t0, st)
    ensures Consistent(t0, Rounds(p, taskOrder, st, i))
    decreases |st.tasks| - i
  {
    if i < |st.tasks| {
      var r := Round(p, taskOrder, st);
      RoundConsistent(p, taskOrder, t0, st);
      if r.0.Some? {
        AllReadyKept(p, st.tasks, r.1.tasks);
        RoundsConsistent(p, taskOrder, t0, r.1, i + 1);
      }
    }
  }

  /** The state `solve` leaves: its rounds over the task set built from the tasks in comparator order. */
  function Solved(p: Problem, tasks: seq<Task>, order: Option<map<int, int>>, agents: seq<Agent>, singletonScores: map<int, real>)
    : (r: BntState)
    requires AllReady(p, tasks)
  {
    TaskOrderPositions(tasks, order);
    Rounds(p, TaskOrder(tasks, order), Start(tasks, agents, singletonScores), 0)
  }

  /**
   * After `solve`, all of the consistency above holds from the initial tasks;
   * in particular the solution's tasks are exactly the completed ones.
   */
  lemma SolvedConsistent(p: Problem, tasks: seq<Task>, order: Option<map<int, int>>, agents: seq<Agent>, singletonScores: map<int, real>)
    requires AllReady(p, tasks)
    ensures Consistent(tasks, Solved(p, tasks, order, agents, singletonScores))
  {
    TaskOrderPositions(tasks, order);
    StartConsistent(tasks, agents, singletonScores);
    RoundsConsistent(p, TaskOrder(tasks, order), tasks, Start(tasks, agents, singletonScores), 0);
  }

  /* ---------- getOptimalSingletonScores ---------- */

  /**
   * Each task's score on the sub-problem where it is the only task: its best
   * one-task solution from freshly built agents, or 0 when it has none.
   */
  function OptimalScores(p: Problem, tasks: seq<Task>, agents: seq<Agent>): (r: seq<real>)
    requires AllReady(p, tasks)
    ensures |r| == |tasks|
  {
    seq(|tasks|, i requires 0 <= i < |tasks| =>
      var b := BestSingleton(p, tasks[i], Toolkit.Clones(agents)).0;
      if b.Some? then b.value.score else 0.0)
  }

  /**
   * A task's optimal singleton score is at least the score of its solution
   * at every location, starting from agents that are idle at their initial
   * locations; it is the score of one of them, or 0 when there is none.
   */
  lemma OptimalScoresAreBest(p: Problem, tasks: seq<Task>, agents: seq<Agent>, i: int)
    requires AllReady(p, tasks) && 0 <= i < |tasks|
    ensures var initial := Toolkit.Clones(agents);
      var v := tasks[i];
      && (forall j :: 0 <= j < |v.demand.possibleLocations| && Candidate(p, initial, v, v.demand.possibleLocations[j]).Some? ==>
            Candidate(p, initial, v, v.demand.possibleLocations[j]).value.score <= OptimalScores(p, tasks, agents)[i])
      && ((forall j :: 0 <= j < |v.demand.possibleLocations| ==> Candidate(p, initial, v, v.demand.possibleLocations[j]).None?) ==>
            OptimalScores(p, tasks, agents)[i] == 0.0)
      && ((exists j :: 0 <= j < |v.demand.possibleLocations| && Candidate(p, initial, v, v.demand.possibleLocations[j]).Some?) ==>
            exists j :: 0 <= j < |v.demand.possibleLocations| && Candidate(p, initial, v, v.demand.possibleLocations[j]).Some? &&
              OptimalScores(p, tasks, agents)[i] == Candidate(p, initial, v, v.demand.possibleLocations[j]).value.score)
  {
    var initial := Toolkit.Clones(agents);
    var v := tasks[i];
    var cs := CandidatesOf(p, initial, v);
    BestSingletonIsBest(p, v, initial);
    if BestSingleton(p, v, initial).0.Some? {
      var m :| 0 <= m < |v.demand.possibleLocations| && BestSingleton(p, v, initial).0 == cs[m];
      assert cs[m] == Candidate(p, initial, v, v.demand.possibleLocations[m]);
    }
  }

  /** Every agent's arrival time reset to 0. */
  method ResetArrivals(agents: seq<Agent>) returns (r: seq<Agent>)
    ensures SameButArrival(agents, r)
    ensures forall k :: 0 <= k < |r| ==> r[k].arrivalTime == 0
  {
    r := agents;
    var k := 0;
    while k < |r|
      invariant 0 <= k <= |r|
      invariant SameButArrival(agents, r)
      invariant forall m :: 0 <= m < k ==> r[m].arrivalTime == 0
    {
      r := r[k := r[k].(arrivalTime := 0)];
      k := k + 1;
    }
  }

  lemma SameButArrivalSymmetric(a: seq<Agent>, b: seq<Agent>)
    requires SameButArrival(a, b)
    ensures SameButArrival(b, a)
  {
  }

  /** One round of `solve`, as the body of its outer loop runs it. */
  method RunRound(p: Problem, taskOrder: seq<int>, st: BntState) returns (picked: bool, next: BntState)
    requires AllReady(p, st.tasks) && InRange(taskOrder, |st.tasks|)
    ensures picked == Round(p, taskOrder, st).0.Some?
    ensures next == Round(p, taskOrder, st).1
  {
    var best, updated := PickBest(p, st.tasks, taskOrder, st.agents);
    if best.None? {
      return false, st.(agents := updated);
    }
    PickIsGreedy(p, st.tasks, taskOrder, st.agents);
    var s := best.value.solution;
    var score, _ := GetScore(s, false);
    var singletonScores := st.singletonScores[st.tasks[best.value.index].id := score];
    var agents := UpdateAgentStatus(updated, Some(s));
    var completed := st.completed + s.tasks;
    var tasks := MarkCompleted(st.tasks, s.tasks);
    var l := st.allocations + s.coalitionAllocations;
    return true, BntState(tasks, agents, singletonScores, completed, l);
  }

  /** One unfolding of the rounds. */
  lemma RoundsStep(p: Problem, taskOrder: seq<int>, st: BntState, i: nat)
    requires AllReady(p, st.tasks) && InRange(taskOrder, |st.tasks|) && i < |st.tasks|
    ensures AllReady(p, Round(p, taskOrder, st).1.tasks)
    ensures Rounds(p, taskOrder, st, i) ==
      if Round(p, taskOrder, st).0.None? then Round(p, taskOrder, st).1
      else Rounds(p, taskOrder, Round(p, taskOrder, st).1, i + 1)
  {
    AllReadyKept(p, st.tasks, Round(p, taskOrder, st).1.tasks);
  }

  /** Resetting arrival times does not change any task's best one-task solution. */
  lemma OptimalScoreStep(p: Problem, tasks: seq<Task>, agents: seq<Agent>, copy: seq<Agent>, i: int)
    requires AllReady(p, tasks) && 0 <= i < |tasks| && SameButArrival(Toolkit.Clones(agents), copy)
    ensures OptimalScores(p, tasks, agents)[i] ==
      var b := BestSingleton(p, tasks[i], copy).0;
      if b.Some? then b.value.score else 0.0
  {
    SameButArrivalSymmetric(Toolkit.Clones(agents), copy);
    BestSingletonIgnoresArrival(p, tasks[i], copy, Toolkit.Clones(agents));
  }

  /** The loop of getOptimalSingletonScores over the tasks, on clones of the agents. */
  method ComputeOptimalScores(p: Problem, tasks: seq<Task>, agents: seq<Agent>) returns (scores: seq<real>)
    requires AllReady(p, tasks)
    ensures scores == OptimalScores(p, tasks, agents)
  {
    var copy := Toolkit.Clones(agents);
    ghost var clones := copy;
    var computed: seq<real> := [];
    var i := 0;
    while i < |tasks|
      invariant 0 <= i <= |tasks|
      invariant SameButArrival(clones, copy)
      invariant computed == OptimalScores(p, tasks, agents)[..i]
    {
      var s, next := GetSingletonSolution(p, tasks[i], copy);
      BestSingletonIsBest(p, tasks[i], copy);
      OptimalScoreStep(p, tasks, agents, copy, i);
      var score := 0.0;
      if s.Some? {
        var stored, _ := GetScore(s.value, false);
        score := stored;
      }
      computed := computed + [score];
      SameButArrivalTransitive(clones, copy, next);
      copy := ResetArrivals(next);
      SameButArrivalTransitive(clones, next, copy);
      i := i + 1;
    }
    assert computed == OptimalScores(p, tasks, agents);
    return computed;
  }

  /** The loop of `solve`: rounds until one picks nothing or there have been as many rounds as tasks. */
  method RunRounds(p: Problem, taskOrder: seq<int>, st0: BntState) returns (r: BntState)
    requires AllReady(p, st0.tasks) && InRange(taskOrder, |st0.tasks|)
    ensures r == Rounds(p, taskOrder, st0, 0)
  {
    r := st0;
    var i := 0;
    while i < |r.tasks|
      invariant 0 <= i <= |r.tasks| == |st0.tasks|
      invariant AllReady(p, r.tasks)
      invariant Rounds(p, taskOrder, r, i) == Rounds(p, taskOrder, st0, 0)
      decreases |r.tasks| - i
    {
      var picked, next := RoundTurn(p, taskOrder, r, i);
      if !picked {
        return next;
      }
      r := next;
      i := i + 1;
    }
  }

  /** One round of the loop, stated by where the rest of the loop goes from. */
  method RoundTurn(p: Problem, taskOrder: seq<int>, st: BntState, i: nat) returns (picked: bool, next: BntState)
    requires AllReady(p, st.tasks) && InRange(taskOrder, |st.tasks|) && i < |st.tasks|
    ensures AllReady(p, next.tasks) && |next.tasks| == |st.tasks|
    ensures picked ==> Rounds(p, taskOrder, st, i) == Rounds(p, taskOrder, next, i + 1)
    ensures !picked ==> next == Rounds(p, taskOrder, st, i)
  {
    RoundsStep(p, taskOrder, st, i);
    picked, next := RunRound(p, taskOrder, st);
  }

  /* ---------- the engine ---------- */

  /**
   * The BNT engine: the solver's copies of the problem's tasks and agents,
   * the task ordering, the solution of the last `solve`, the score recorded
   * for each committed task, and the memoised optimal singleton scores.
   */
  class BntSolver {
    const problem: Problem
    var tasks: seq<Task>
    var order: Option<map<int, int>>
    var agents: seq<Agent>
    var solution: Option<Solution>
    var singletonScores: map<int, real>
    var optimalSingletonScores: Option<seq<real>>

    /** The solver starts from the problem's tasks, agents and task ordering, with no solution and no scores. */
    constructor (problem: Problem)
      ensures this.problem == problem
      ensures tasks == problem.tasks && agents == problem.agents && order == problem.order
      ensures solution.None? && singletonScores == map[] && optimalSingletonScores.None?
    {
      this.problem := problem;
      tasks := problem.tasks;
      agents := problem.agents;
      order := problem.order;
      solution := None;
      singletonScores := map[];
      optimalSingletonScores := None;
    }

    /**
     * The greedy rounds over the task set in comparator order; the solution
     * is built from the completed tasks and the allocations of every round.
     */
    method Solve()
      requires AllReady(problem, tasks)
      modifies this
      ensures var r := Solved(problem, old(tasks), old(order), old(agents), old(singletonScores));
        && tasks == r.tasks && agents == r.agents && singletonScores == r.singletonScores
        && solution == Some(Build(r.completed, r.allocations))
      ensures order == old(order) && optimalSingletonScores == old(optimalSingletonScores)
    {
      var taskOrder := TaskOrder(tasks, order);
      TaskOrderPositions(tasks, order);
      var r := RunRounds(problem, taskOrder, Start(tasks, agents, singletonScores));
      tasks, agents, singletonScores := r.tasks, r.agents, r.singletonScores;
      var built := Solutions.New(r.completed, r.allocations);
      solution := Some(built);
    }

    /**
     * Memoised: the first call scores every task on its own from clones of
     * the agents, resetting the clones' arrival times after each task; later
     * calls return the stored scores.
     */
    method GetOptimalSingletonScores() returns (scores: seq<real>)
      requires AllReady(problem, tasks)
      modifies this
      ensures tasks == old(tasks) && agents == old(agents) && order == old(order)
      ensures solution == old(solution) && singletonScores == old(singletonScores)
      ensures old(optimalSingletonScores).Some? ==> scores == old(optimalSingletonScores).value
      ensures old(optimalSingletonScores).None? ==> scores == OptimalScores(problem, tasks, agents)
      ensures optimalSingletonScores == Some(scores)
    {
      if optimalSingletonScores.Some? {
        return optimalSingletonScores.value;
      }
      var computed := ComputeOptimalScores(problem, tasks, agents);
      optimalSingletonScores := Some(computed);
      scores := computed;
    }
  }
}
