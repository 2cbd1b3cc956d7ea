/** A MARSC problem instance: tasks, an optional precedence order, agents and the horizon. */
module Marsc {
  import opened Wrappers
  import opened Locations
  import opened Tasks
  import opened Agents
  import opened Allocations

  /**
   * The characteristic function: work a coalition does on a task at a
   * location in one time unit. Each value-function variant supplies one
   * (see the Problems module); the source asks implementations to memoise
   * it, so the engines see it as a function.
   */
  type ValueFunction = (Task, Location, seq<Agent>) -> real

  /**
   * `order` maps a task id to the id of the task that must precede it; it is
   * None when no ordering was given or it was empty.
   */
  datatype Problem = Problem(
    tasks: seq<Task>,
    order: Option<map<int, int>>,
    agents: seq<Agent>,
    maximumProblemCompletionTime: int,
    value: ValueFunction,
    travel: TravelTime)

  datatype ProblemError = NoTasks | NoAgents

  /** The message the constructor's first check prints. */
  function Diagnose(tasks: seq<Task>, agents: seq<Agent>): (r: Option<ProblemError>)
    ensures r.None? <==> |tasks| > 0 && |agents| > 0
    ensures r == Some(NoTasks) <==> |tasks| == 0
  {
    if |tasks| == 0 then Some(NoTasks) else if |agents| == 0 then Some(NoAgents) else None
  }

  /** The horizon: the largest hard deadline, or 0 when none is positive. */
  function MaxHardLatest(tasks: seq<Task>): int
    decreases |tasks|
  {
    if |tasks| == 0 then 0
    else
      var m := MaxHardLatest(tasks[..|tasks| - 1]);
      var h := tasks[|tasks| - 1].demand.timeWindow.hardLatestTime;
      if h > m then h else m
  }

  /** The horizon bounds every hard deadline, is at least 0, and is attained unless it is 0. */
  lemma {:induction false} MaxHardLatestIsMaximum(tasks: seq<Task>)
    ensures MaxHardLatest(tasks) >= 0
    ensures forall k :: 0 <= k < |tasks| ==> tasks[k].demand.timeWindow.hardLatestTime <= MaxHardLatest(tasks)
    ensures MaxHardLatest(tasks) == 0 ||
      exists k :: 0 <= k < |tasks| && tasks[k].demand.timeWindow.hardLatestTime == MaxHardLatest(tasks)
    decreases |tasks|
  {
    if |tasks| > 0 {
      var init := tasks[..|tasks| - 1];
      MaxHardLatestIsMaximum(init);
      assert forall k :: 0 <= k < |init| ==> init[k] == tasks[k];
    }
  }

  /** The order that is kept: a non-empty one as given, otherwise none. */
  function StoredOrder(order: Option<map<int, int>>): (r: Option<map<int, int>>)
    ensures r.Some? <==> order.Some? && |order.value| > 0
    ensures r.Some? ==> r == order
  {
    if order.Some? && |order.value| > 0 then order else None
  }

  /**
   * The constructor: prints an error for an empty task or agent list but
   * stores both anyway, keeps the order only when it is non-empty, and
   * computes the horizon with a maximum loop.
   */
  method New(tasks: seq<Task>, order: Option<map<int, int>>, agents: seq<Agent>, value: ValueFunction, travel: TravelTime)
    returns (p: Problem, printed: Option<ProblemError>)
    ensures p == Problem(tasks, StoredOrder(order), agents, MaxHardLatest(tasks), value, travel)
    ensures printed == Diagnose(tasks, agents)
  {
    printed := Diagnose(tasks, agents);
    var stored: Option<map<int, int>> := None;
    if order.Some? && |order.value| > 0 {
      stored := order;
    }
    var dmax := 0;
    var k := 0;
    while k < |tasks|
      invariant 0 <= k <= |tasks|
      invariant dmax == MaxHardLatest(tasks[..k])
    {
      assert tasks[..k + 1][..k] == tasks[..k];
      if tasks[k].demand.timeWindow.hardLatestTime > dmax {
        dmax := tasks[k].demand.timeWindow.hardLatestTime;
      }
      k := k + 1;
    }
    assert tasks[..k] == tasks;
    p := Problem(tasks, stored, agents, dmax, value, travel);
  }

  /** `getValue(ca)`: the value of the allocation's coalition on its task and location. */
  function AllocationValue(p: Problem, ca: CoalitionAllocation): (r: real)
    ensures r == p.value(ca.task, ca.location, ca.coalition)
  {
    p.value(ca.task, ca.location, ca.coalition)
  }
}
