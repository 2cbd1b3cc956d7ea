/** A coalition allocation: a coalition working on a task at a location over [startTime, endTime]. */
module Allocations {
  import opened Wrappers
  import opened Locations
  import opened Tasks
  import opened Agents

  /**
   * Every field is final in the source, so an allocation is a value. The
   * coalition holds the agents as they were when the allocation was made.
   */
  datatype CoalitionAllocation = CoalitionAllocation(
    task: Task,
    location: Location,
    coalition: seq<Agent>,
    value: real,
    startTime: int,
    endTime: int)

  datatype AllocationError =
    | InvalidLocation(location: Location)
    | EmptyCoalition
    | NegativeStart(startTime: int)
    | NegativeEnd(endTime: int)
    | StartAfterEnd(startTime: int, endTime: int)

  /** An allocation the constructor accepts without printing anything. */
  predicate Valid(ca: CoalitionAllocation) {
    && ca.location in ca.task.demand.possibleLocations
    && |ca.coalition| > 0
    && 0 <= ca.startTime <= ca.endTime
  }

  /** The message the constructor prints: the first of its checks that fails. */
  function Diagnose(task: Task, location: Location, coalition: seq<Agent>, startTime: int, endTime: int)
    : (r: Option<AllocationError>)
    ensures r.None? <==> location in task.demand.possibleLocations && |coalition| > 0 && 0 <= startTime <= endTime
    ensures r == Some(InvalidLocation(location)) <==> location !in task.demand.possibleLocations
    ensures r == Some(EmptyCoalition) <==> location in task.demand.possibleLocations && |coalition| == 0
    ensures r == Some(StartAfterEnd(startTime, endTime)) <==>
      location in task.demand.possibleLocations && |coalition| > 0 && 0 <= startTime && 0 <= endTime && startTime > endTime
  {
    if location !in task.demand.possibleLocations then Some(InvalidLocation(location))
    else if |coalition| == 0 then Some(EmptyCoalition)
    else if startTime < 0 then Some(NegativeStart(startTime))
    else if endTime < 0 then Some(NegativeEnd(endTime))
    else if startTime > endTime then Some(StartAfterEnd(startTime, endTime))
    else None
  }

  /** The constructor assigns every field from its arguments, even after printing an error. */
  function Construct(task: Task, location: Location, coalition: seq<Agent>, value: real, startTime: int, endTime: int)
    : (r: Built<CoalitionAllocation, AllocationError>)
    ensures r.obj.task == task && r.obj.location == location && r.obj.coalition == coalition
    ensures r.obj.value == value && r.obj.startTime == startTime && r.obj.endTime == endTime
    ensures r.printed.None? <==> Valid(r.obj)
  {
    Built(CoalitionAllocation(task, location, coalition, value, startTime, endTime),
          Diagnose(task, location, coalition, startTime, endTime))
  }

  /** The number of time units the allocation spans, as its description reports it. */
  function Interval(ca: CoalitionAllocation): (r: int)
    ensures Valid(ca) ==> r >= 1
    ensures ca.startTime + r - 1 == ca.endTime
  {
    ca.endTime - ca.startTime + 1
  }

  /**
   * The source's `equals(CoalitionAllocation)`: same task (by id), location,
   * start, end and coalition, element by element; agents are compared by
   * identity, which the model represents by their ids. The value is ignored.
   */
  predicate Equals(ca: CoalitionAllocation, other: CoalitionAllocation) {
    && Tasks.Equals(ca.task, other.task)
    && ca.location == other.location
    && ca.startTime == other.startTime
    && ca.endTime == other.endTime
    && Ids(ca.coalition) == Ids(other.coalition)
  }

  /** Equality is an equivalence that does not look at the coalition value. */
  lemma EqualsIsEquivalenceIgnoringValue(a: CoalitionAllocation, b: CoalitionAllocation, c: CoalitionAllocation, v: real)
    ensures Equals(a, a) && Equals(a, a.(value := v))
    ensures Equals(a, b) ==> Equals(b, a)
    ensures Equals(a, b) && Equals(b, c) ==> Equals(a, c)
  {
  }

  /** Coalitions agree element by element exactly when their agents have the same ids in the same order. */
  lemma EqualsComparesCoalitionElementwise(a: CoalitionAllocation, b: CoalitionAllocation)
    requires Tasks.Equals(a.task, b.task) && a.location == b.location
    requires a.startTime == b.startTime && a.endTime == b.endTime
    ensures Equals(a, b) <==>
      |a.coalition| == |b.coalition| &&
      forall k :: 0 <= k < |a.coalition| ==> a.coalition[k].id == b.coalition[k].id
  {
    if |a.coalition| == |b.coalition| &&
       forall k :: 0 <= k < |a.coalition| ==> a.coalition[k].id == b.coalition[k].id
    {
      assert Ids(a.coalition) == Ids(b.coalition);
    }
  }
}
