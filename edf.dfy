/**
 * Earliest Deadline First: one pass over the task set in comparator order
 * (earliest time, then hard deadline, predecessors first). Each task gets
 * BNT's best one-task solution from the agents as the earlier commitments
 * left them, and a task with none is skipped. EDF never changes a task's
 * status.
 */
module Edf {
  import opened Wrappers
  import opened TimeWindows
  import opened Tasks
  import opened Agents
  import opened Allocations
  import opened Solutions
  import opened Marsc
  import opened SolverCore
  import opened Bnt

  /** The visit of the j-th element of the task set. */
  function Visit(p: Problem, taskOrder: seq<int>, st: BntState, j: nat): (r: BntState)
    requires AllReady(p, st.tasks) && InRange(taskOrder, |st.tasks|) && j < |taskOrder|
    ensures r.tasks == st.tasks
  {
    var v := st.tasks[taskOrder[j]];
    var b := BestSingleton(p, v, st.agents);
    if b.0.None? then st.(agents := b.1)
    else
      var s := b.0.value;
      BntState(
        st.tasks,
        UpdateAgentStatusOf(b.1, b.0),
        st.singletonScores[v.id := s.score],
        st.completed + s.tasks,
        st.allocations + s.coalitionAllocations)
  }

  /** The pass over the task set from element j on. */
  function Pass(p: Problem, taskOrder: seq<int>, st: BntState, j: nat): (r: BntState)
    requires AllReady(p, st.tasks) && InRange(taskOrder, |st.tasks|) && j <= |taskOrder|
    ensures r.tasks == st.tasks
    decreases |taskOrder| - j
  {
    if j == |taskOrder| then st else Pass(p, taskOrder, Visit(p, taskOrder, st, j), j + 1)
  }

  /** The state EDF's `solve` leaves. */
  function Passed(p: Problem, tasks: seq<Task>, order: Option<map<int, int>>, agents: seq<Agent>, singletonScores: map<int, real>)
    : (r: BntState)
    requires AllReady(p, tasks)
  {
    TaskOrderPositions(tasks, order);
    Pass(p, TaskOrder(tasks, order), Start(tasks, agents, singletonScores), 0)
  }

  /**
   * A visit whose task has a one-task solution commits it at once: its
   * task, and only it, joins the completed set, its score is recorded under
   * the task's id and its allocations are appended, adding their score; a
   * visit without one changes only arrival times.
   */
  lemma VisitCommits(p: Problem, taskOrder: seq<int>, st: BntState, j: nat)
    requires AllReady(p, st.tasks) && InRange(taskOrder, |st.tasks|) && j < |taskOrder|
    requires AllScorable(st.allocations)
    ensures var v := st.tasks[taskOrder[j]];
      var b := BestSingleton(p, v, st.agents).0;
      var r := Visit(p, taskOrder, st, j);
      && AllScorable(r.allocations)
      && (b.None? ==> r == st.(agents := r.agents) && SameButArrival(st.agents, r.agents))
      && (b.Some? ==>
            && r.completed == st.completed + {v.id}
            && r.singletonScores == st.singletonScores[v.id := b.value.score]
            && r.allocations == st.allocations + b.value.coalitionAllocations
            && ScoreOf(r.allocations) == ScoreOf(st.allocations) + b.value.score)
  {
    var v := st.tasks[taskOrder[j]];
    BestSingletonIsBest(p, v, st.agents);
    if BestSingleton(p, v, st.agents).0.Some? {
      SingletonShape(p, v, st.agents);
      ScoreOfAppend(st.allocations, BestSingleton(p, v, st.agents).0.value.coalitionAllocations);
    }
  }

  /**
   * What EDF keeps true: the tasks never change; completed ids are task ids
   * with a recorded score; every allocation is for a completed task, can be
   * scored and (for a consistent window) is valid and ends by the task's
   * hard deadline.
   */
  ghost predicate PassConsistent(t0: seq<Task>, st: BntState) {
    && st.tasks == t0
    && st.completed <= TaskIds(t0)
    && (forall x :: x in st.completed ==> x in st.singletonScores)
    && (forall j :: 0 <= j < |st.allocations| ==> st.allocations[j].task.id in st.completed)
    && AllScorable(st.allocations)
    && (forall j :: 0 <= j < |st.allocations| ==>
          var ca := st.allocations[j];
          TimeWindows.Valid(ca.task.demand.timeWindow) ==>
            Allocations.Valid(ca) && ca.endTime <= ca.task.demand.timeWindow.hardLatestTime)
  }

  lemma VisitConsistent(p: Problem, taskOrder: seq<int>, t0: seq<Task>, st: BntState, j: nat)
    requires AllReady(p, st.tasks) && InRange(taskOrder, |st.tasks|) && j < |taskOrder|
    requires PassConsistent(t0, st)
    ensures PassConsistent(t0, Visit(p, taskOrder, st, j))
  {
    var v := st.tasks[taskOrder[j]];
    VisitCommits(p, taskOrder, st, j);
    if BestSingleton(p, v, st.agents).0.Some? {
      SingletonShape(p, v, st.agents);
      assert v.id in TaskIds(t0) by {
        assert t0[taskOrder[j]].id == v.id;
      }
      CommitKeepsPass(t0, st, Visit(p, taskOrder, st, j), v, BestSingleton(p, v, st.agents).0.value);
    }
  }

  /** Committing a one-task solution for a task of the set keeps the facts EDF keeps. */
  lemma CommitKeepsPass(t0: seq<Task>, st: BntState, r: BntState, v: Task, s: Solution)
    requires PassConsistent(t0, st) && v.id in TaskIds(t0) && r.tasks == t0
    requires r.completed == st.completed + {v.id} && r.singletonScores == st.singletonScores[v.id := s.score]
    requires r.allocations == st.allocations + s.coalitionAllocations && AllScorable(r.allocations)
    requires forall k :: 0 <= k < |s.coalitionAllocations| ==> s.coalitionAllocations[k].task == v
    requires TimeWindows.Valid(v.demand.timeWindow) ==>
      forall k :: 0 <= k < |s.coalitionAllocations| ==>
        Allocations.Valid(s.coalitionAllocations[k]) && s.coalitionAllocations[k].endTime <= v.demand.timeWindow.hardLatestTime
    ensures PassConsistent(t0, r)
  {
    forall m | 0 <= m < |r.allocations|
      ensures r.allocations[m].task.id in r.completed
      ensures TimeWindows.Valid(r.allocations[m].task.demand.timeWindow) ==>
        Allocations.Valid(r.allocations[m]) && r.allocations[m].endTime <= r.allocations[m].task.demand.timeWindow.hardLatestTime
    {
      if m >= |st.allocations| {
        assert r.allocations[m] == s.coalitionAllocations[m - |st.allocations|];
      }
    }
  }

  lemma {:induction false} PassConsistentFrom(p: Problem, taskOrder: seq<int>, t0: seq<Task>, st: BntState, j: nat)
    requires AllReady(p, st.tasks) && InRange(taskOrder, |st.tasks|) && j <= |taskOrder|
    requires PassConsistent(t0, st)
    ensures PassConsistent(t0, Pass(p, taskOrder, st, j))
    decreases |taskOrder| - j
  {
    if j < |taskOrder| {
      VisitConsistent(p, taskOrder, t0, st, j);
      PassConsistentFrom(p, taskOrder, t0, Visit(p, taskOrder, st, j), j + 1);
    }
  }

  /** EDF's solution holds only valid allocations of tasks it completed, each with its score recorded. */
  lemma PassedConsistent(p: Problem, tasks: seq<Task>, order: Option<map<int, int>>, agents: seq<Agent>, singletonScores: map<int, real>)
    requires AllReady(p, tasks)
    ensures PassConsistent(tasks, Passed(p, tasks, order, agents, singletonScores))
  {
    TaskOrderPositions(tasks, order);
    PassConsistentFrom(p, TaskOrder(tasks, order), tasks, Start(tasks, agents, singletonScores), 0);
  }

  /** The body of EDF's loop for one element of the task set. */
  method VisitTask(p: Problem, taskOrder: seq<int>, st: BntState, j: nat) returns (next: BntState)
    requires AllReady(p, st.tasks) && InRange(taskOrder, |st.tasks|) && j < |taskOrder|
    ensures next == Visit(p, taskOrder, st, j)
  {
    var v := st.tasks[taskOrder[j]];
    var current, updated := GetSingletonSolution(p, v, st.agents);
    if current.None? {
      return st.(agents := updated);
    }
    var s := current.value;
    var agents := UpdateAgentStatus(updated, current);
    var completed := st.completed + s.tasks;
    var score, _ := GetScore(s, false);
    var singletonScores := st.singletonScores[v.id := score];
    var l := st.allocations;
    var k := 0;
    while k < |s.coalitionAllocations|
      invariant 0 <= k <= |s.coalitionAllocations|
      invariant l == st.allocations + s.coalitionAllocations[..k]
    {
      l := l + [s.coalitionAllocations[k]];
      k := k + 1;
    }
    assert s.coalitionAllocations[..k] == s.coalitionAllocations;
    return BntState(st.tasks, agents, singletonScores, completed, l);
  }

  /** EDF's loop over the task set. */
  method RunPass(p: Problem, taskOrder: seq<int>, st0: BntState) returns (r: BntState)
    requires AllReady(p, st0.tasks) && InRange(taskOrder, |st0.tasks|)
    ensures r == Pass(p, taskOrder, st0, 0)
  {
    r := st0;
    for j := 0 to |taskOrder|
      invariant r.tasks == st0.tasks
      invariant Pass(p, taskOrder, r, j) == Pass(p, taskOrder, st0, 0)
    {
      r := VisitTask(p, taskOrder, r, j);
    }
  }

  /** The EDF engine: BNT's state plus the task set of the last `solve`. */
  class EdfSolver {
    const problem: Problem
    var tasks: seq<Task>
    var order: Option<map<int, int>>
    var agents: seq<Agent>
    var solution: Option<Solution>
    var singletonScores: map<int, real>
    var taskSet: seq<int>

    constructor (problem: Problem)
      ensures this.problem == problem
      ensures tasks == problem.tasks && agents == problem.agents && order == problem.order
      ensures solution.None? && singletonScores == map[] && taskSet == []
    {
      this.problem := problem;
      tasks := problem.tasks;
      agents := problem.agents;
      order := problem.order;
      solution := None;
      singletonScores := map[];
      taskSet := [];
    }

    /** One pass over the solver's tasks in comparator order. */
    method Solve()
      requires AllReady(problem, tasks)
      modifies this
      ensures var r := Passed(problem, old(tasks), old(order), old(agents), old(singletonScores));
        && tasks == old(tasks) && agents == r.agents && singletonScores == r.singletonScores
        && solution == Some(Build(r.completed, r.allocations))
      ensures taskSet == TaskOrder(old(tasks), old(order)) && order == old(order)
    {
      taskSet := TaskOrder(tasks, order);
      TaskOrderPositions(tasks, order);
      var r := RunPass(problem, taskSet, Start(tasks, agents, singletonScores));
      agents, singletonScores := r.agents, r.singletonScores;
      var built := Solutions.New(r.completed, r.allocations);
      solution := Some(built);
    }
  }
}
