/** A task: an identifier, its demand, and the mutable state the engines keep on it. */
module Tasks {
  import opened Locations
  import opened Demands

  /** The four states a task goes through; nothing else is representable. */
  datatype TaskStatus = UNCOMPLETED | ALLOCABLE | ALLOCATED | COMPLETED

  /**
   * `status` and `allocableMap` are the fields the engines overwrite. The
   * allocable map gives, per possible location, the ids of the agents that can
   * currently be assigned there; it is only used by CTS and is empty until CTS
   * initialises it.
   */
  datatype Task = Task(id: int, demand: Demand, status: TaskStatus, allocableMap: map<Location, set<int>>)

  /** A new task is UNCOMPLETED and keeps the given id and demand. */
  function New(id: int, demand: Demand): (t: Task)
    ensures t.id == id && t.demand == demand
    ensures t.status == UNCOMPLETED && t.allocableMap == map[]
  {
    Task(id, demand, UNCOMPLETED, map[])
  }

  /** Two tasks are equal when their ids are. */
  predicate Equals(t: Task, other: Task) {
    t.id == other.id
  }

  /** Equality of tasks ignores the demand and the engine state. */
  lemma EqualsIgnoresState(t: Task, d: Demand, s: TaskStatus)
    ensures Equals(t, t.(demand := d, status := s, allocableMap := map[]))
  {
  }
}
