/** An agent: identity, speed, and the routing state the engines update. */
module Agents {
  import opened Wrappers
  import opened Locations

  datatype AgentStatus = IDLE | TRAVELING | WORKING

  /**
   * `id`, `initialLocation` and `speed` never change; the other fields are
   * the mutable routing state. `target` is the id of the task the agent is
   * assigned to; `endTime` is the last time it worked, 0 meaning never.
   */
  datatype Agent = Agent(
    id: int,
    initialLocation: Location,
    location: Location,
    speed: real,
    status: AgentStatus,
    target: Option<int>,
    targetLocation: Option<Location>,
    arrivalTime: int,
    endTime: int)

  /** The constructor prints an error only for a negative speed; speed 0 is accepted. */
  predicate SpeedFlagged(speed: real) {
    speed < 0.0
  }

  /** A new agent is IDLE at its initial location, and has neither arrived nor worked. */
  function New(id: int, initialLocation: Location, speed: real): (a: Agent)
    ensures a.id == id && a.speed == speed && a.initialLocation == initialLocation
    ensures a.location == a.initialLocation
    ensures a.status == IDLE && a.arrivalTime == 0 && a.endTime == 0
    ensures a.target.None? && a.targetLocation.None?
  {
    Agent(id, initialLocation, initialLocation, speed, IDLE, None, None, 0, 0)
  }

  /** Travel time between two locations at this agent's speed. */
  function TravelTime(a: Agent, departure: Location, destination: Location, travel: TravelTime): nat {
    travel(departure, destination, a.speed)
  }

  /** Travel time from the agent's current location (not its initial one). */
  function TravelTimeTo(a: Agent, destination: Location, travel: TravelTime): (r: nat)
    ensures r == TravelTime(a, a.location, destination, travel)
  {
    TravelTime(a, a.location, destination, travel)
  }

  /** The ids of a list of agents, in order. */
  function Ids(agents: seq<Agent>): (r: seq<int>)
    ensures |r| == |agents|
    ensures forall k :: 0 <= k < |agents| ==> r[k] == agents[k].id
  {
    seq(|agents|, k requires 0 <= k < |agents| => agents[k].id)
  }

  /** The set of ids of a list of agents. */
  function IdSet(agents: seq<Agent>): (r: set<int>)
    ensures forall x :: x in r <==> exists k :: 0 <= k < |agents| && agents[k].id == x
  {
    set k | 0 <= k < |agents| :: agents[k].id
  }

  /** Agents are told apart by id in the model, standing for Java object identity. */
  predicate DistinctIds(agents: seq<Agent>) {
    forall i, j :: 0 <= i < |agents| && 0 <= j < |agents| && i != j ==> agents[i].id != agents[j].id
  }
}
