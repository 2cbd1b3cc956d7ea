/**
 * Cluster-based Task Scheduling: a tick-by-tick simulation. At each tick an
 * idle agent is offered to the closest task it can help with, every task
 * that received offers grows (or improves) its one-task solution from the
 * agents offered and those already working on it, and a task whose solution
 * is done by the current time is completed and its agents released. The
 * simulation stops when no agent is busy, every task is completed, or the
 * clock passes the horizon.
 */
module Cts {
  import opened Wrappers
  import opened Locations
  import opened TimeWindows
  import opened Tasks
  import opened Agents
  import opened Allocations
  import opened Scores
  import opened Solutions
  import opened Marsc
  import opened SolverCore
  import Growth
  import Bnt

  /**
   * The engine's state: the solver's tasks and agents, one optional
   * one-task solution per task index, the clock, and the number of tasks
   * completed by the current `solve`.
   */
  datatype CtsState = CtsState(
    tasks: seq<Task>,
    agents: seq<Agent>,
    singletons: seq<Option<Solution>>,
    currentTime: int,
    completedCount: int)

  /** One solution slot per task. */
  predicate Shaped(st: CtsState) {
    |st.singletons| == |st.tasks|
  }

  /** The tasks keep their ids and demands; only status and allocable map change. */
  predicate SameTasks(a: seq<Task>, b: seq<Task>) {
    |a| == |b| && forall k :: 0 <= k < |a| ==> b[k].id == a[k].id && b[k].demand == a[k].demand
  }

  /** What the engine needs of the problem: positive coalition values and decays that can be evaluated. */
  ghost predicate Ready(p: Problem, st: CtsState) {
    Bnt.AllReady(p, st.tasks) && Shaped(st)
  }

  lemma ReadyKept(p: Problem, st: CtsState, r: CtsState)
    requires Ready(p, st) && SameTasks(st.tasks, r.tasks) && Shaped(r)
    ensures Ready(p, r)
  {
    forall k | 0 <= k < |r.tasks|
      ensures DecayDefined(r.tasks[k].demand.timeWindow)
    {
      assert r.tasks[k].demand == st.tasks[k].demand;
    }
  }

  /* ---------- resetAllocableMap ---------- */

  /** A fresh allocable map for the task: every possible location, with no agent. */
  function Reset(v: Task): (r: Task)
    ensures r.id == v.id && r.demand == v.demand && r.status == v.status
    ensures forall l :: l in r.allocableMap <==> l in v.demand.possibleLocations
    ensures forall l :: l in r.allocableMap ==> r.allocableMap[l] == {}
  {
    v.(allocableMap := map l | l in v.demand.possibleLocations :: {})
  }

  /** The loop over the possible locations that puts an empty set under each. */
  method ResetAllocableMap(v: Task) returns (r: Task)
    ensures r == Reset(v)
  {
    var locations := v.demand.possibleLocations;
    var m: map<Location, set<int>> := map[];
    for k := 0 to |locations|
      invariant m == map l | l in locations[..k] :: {}
    {
      assert locations[..k + 1] == locations[..k] + [locations[k]];
      m := m[locations[k] := {}];
    }
    assert locations[..|locations|] == locations;
    r := v.(allocableMap := m);
  }

  /* ---------- identity lookups ---------- */

  /** The first task with the given id, or -1: the model's stand-in for following a task reference. */
  function FindTask(tasks: seq<Task>, id: int): (r: int)
    ensures -1 <= r < |tasks|
    ensures r >= 0 ==> tasks[r].id == id && forall k :: 0 <= k < r ==> tasks[k].id != id
    ensures r == -1 <==> forall k :: 0 <= k < |tasks| ==> tasks[k].id != id
  {
    if |tasks| == 0 then -1
    else if tasks[0].id == id then 0
    else
      var r := FindTask(tasks[1..], id);
      assert forall k :: 1 <= k < |tasks| ==> tasks[k] == tasks[1..][k - 1];
      if r == -1 then -1 else r + 1
  }

  /** Some agent is TRAVELING or WORKING. */
  predicate Busy(agents: seq<Agent>) {
    exists k :: 0 <= k < |agents| && agents[k].status != IDLE
  }

  /* ---------- setPotentialAllocationsTo ---------- */

  /**
   * A task whose predecessor (by the precedence order) is not COMPLETED is
   * skipped; a predecessor that is not among the solver's tasks counts as not
   * completed.
   */
  predicate Blocked(tasks: seq<Task>, order: Option<map<int, int>>, j: int)
    requires 0 <= j < |tasks|
  {
    order.Some? && tasks[j].id in order.value &&
      var k := FindTask(tasks, order.value[tasks[j].id]);
      k == -1 || tasks[k].status != COMPLETED
  }

  /** The tasks an idle agent may be offered to: not blocked, and UNCOMPLETED or ALLOCATED. */
  predicate Eligible(tasks: seq<Task>, order: Option<map<int, int>>, j: int)
    requires 0 <= j < |tasks|
  {
    !Blocked(tasks, order, j) && (tasks[j].status == UNCOMPLETED || tasks[j].status == ALLOCATED)
  }

  /** A candidate of the scan: a task index (-1 for none yet), the arrival time there, and the location. */
  datatype Slot = Slot(task: int, arrival: int, location: Location)

  /** Slot 0 collects UNCOMPLETED tasks, slot 1 ALLOCATED ones. */
  datatype Slots = Slots(open: Slot, taken: Slot)

  /** An empty slot: no task, and an arrival one past the horizon. */
  function Unset(p: Problem): Slot {
    Slot(-1, p.maximumProblemCompletionTime + 1, 0)
  }

  /** When agent i would reach a location, moving from where it is now. */
  function ArrivalAt(p: Problem, st: CtsState, i: int, location: Location): int
    requires 0 <= i < |st.agents|
  {
    st.currentTime + TravelTimeTo(st.agents[i], location, p.travel)
  }

  predicate SlotInRange(st: CtsState, s: Slot) {
    -1 <= s.task < |st.tasks|
  }

  function HardOf(st: CtsState, j: int): int
    requires 0 <= j < |st.tasks|
  {
    st.tasks[j].demand.timeWindow.hardLatestTime
  }

  /**
   * The slot's task has no solution yet, or its solution works until t or
   * later. (A solution with no allocation, which the engine never builds,
   * counts as not lasting.)
   */
  predicate Outlasts(st: CtsState, s: Slot, t: int)
    requires Shaped(st) && 0 <= s.task < |st.tasks|
  {
    var sol := st.singletons[s.task];
    sol.None? || (|sol.value.coalitionAllocations| > 0 && LastWorkingTime(sol.value) >= t)
  }

  /**
   * One location of task j, offered to agent i, against the slot's current
   * candidate. `&&` binds tighter than `||`, so an empty slot takes the
   * first location it is shown, unreachable or not; a filled slot changes
   * only for a strictly earlier arrival that is before the new task's hard
   * deadline, a new task with a strictly earlier hard deadline, and a current
   * solution that still works at that arrival.
   */
  function Consider(p: Problem, st: CtsState, i: int, j: int, s: Slot, location: Location): (r: Slot)
    requires Shaped(st) && 0 <= i < |st.agents| && 0 <= j < |st.tasks| && SlotInRange(st, s)
    ensures SlotInRange(st, r)
    ensures r == s || r == Slot(j, ArrivalAt(p, st, i, location), location)
    ensures s.task == -1 ==> r == Slot(j, ArrivalAt(p, st, i, location), location)
    ensures s.task != -1 && r != s ==>
      var t := ArrivalAt(p, st, i, location);
      t < HardOf(st, j) && t < s.arrival && HardOf(st, j) < HardOf(st, s.task) && Outlasts(st, s, t)
  {
    var t := ArrivalAt(p, st, i, location);
    var gamma := st.tasks[j].demand.timeWindow.hardLatestTime;
    if s.task == -1 || (t < gamma && t < s.arrival && gamma < st.tasks[s.task].demand.timeWindow.hardLatestTime
      && Outlasts(st, s, t))
    then Slot(j, t, location)
    else s
  }

  /** The scan of task j's locations from the k-th on. */
  function ScanLocations(p: Problem, st: CtsState, i: int, j: int, s: Slot, k: nat): (r: Slot)
    requires Shaped(st) && 0 <= i < |st.agents| && 0 <= j < |st.tasks| && SlotInRange(st, s)
    requires k <= |st.tasks[j].demand.possibleLocations|
    ensures SlotInRange(st, r)
    decreases |st.tasks[j].demand.possibleLocations| - k
  {
    var locations := st.tasks[j].demand.possibleLocations;
    if k == |locations| then s else ScanLocations(p, st, i, j, Consider(p, st, i, j, s, locations[k]), k + 1)
  }

  /** The scan of the tasks from the j-th on, for agent i. */
  function ScanTasks(p: Problem, order: Option<map<int, int>>, st: CtsState, i: int, j: nat, ss: Slots): (r: Slots)
    requires Shaped(st) && 0 <= i < |st.agents| && j <= |st.tasks|
    requires SlotInRange(st, ss.open) && SlotInRange(st, ss.taken)
    ensures SlotInRange(st, r.open) && SlotInRange(st, r.taken)
    decreases |st.tasks| - j
  {
    if j == |st.tasks| then ss
    else if !Eligible(st.tasks, order, j) then ScanTasks(p, order, st, i, j + 1, ss)
    else if st.tasks[j].status == UNCOMPLETED then
      ScanTasks(p, order, st, i, j + 1, ss.(open := ScanLocations(p, st, i, j, ss.open, 0)))
    else
      ScanTasks(p, order, st, i, j + 1, ss.(taken := ScanLocations(p, st, i, j, ss.taken, 0)))
  }

  /** The slot committed: an UNCOMPLETED candidate if there is one, else an ALLOCATED one. */
  function Chosen(ss: Slots): Slot {
    if ss.open.task > -1 then ss.open else ss.taken
  }

  /** An agent joins the allocable set of a location (a location missing from the map is taken as an empty set). */
  function Join(m: map<Location, set<int>>, location: Location, id: int): map<Location, set<int>> {
    m[location := (if location in m then m[location] else {}) + {id}]
  }

  /**
   * The commit: the chosen task becomes ALLOCABLE with the agent in the
   * allocable set of the chosen location, and the agent targets that task
   * and location with the arrival time found.
   */
  function Commit(st: CtsState, i: int, c: Slot): (r: CtsState)
    requires 0 <= i < |st.agents| && 0 <= c.task < |st.tasks|
  {
    var v := st.tasks[c.task];
    var a := st.agents[i];
    st.(tasks := st.tasks[c.task := v.(status := ALLOCABLE, allocableMap := Join(v.allocableMap, c.location, a.id))],
        agents := st.agents[i := a.(target := Some(v.id), targetLocation := Some(c.location), arrivalTime := c.arrival)])
  }

  /** setPotentialAllocationsTo(i): scan, then commit the chosen slot, or change nothing. */
  function Potential(p: Problem, order: Option<map<int, int>>, st: CtsState, i: int): (r: CtsState)
    requires Shaped(st) && 0 <= i < |st.agents|
    ensures SameTasks(st.tasks, r.tasks) && |r.agents| == |st.agents| && r.singletons == st.singletons
    ensures r.currentTime == st.currentTime && r.completedCount == st.completedCount
  {
    var ss := ScanTasks(p, order, st, i, 0, Slots(Unset(p), Unset(p)));
    if ss.open.task > -1 || ss.taken.task > -1 then Commit(st, i, Chosen(ss)) else st
  }

  /** A slot is empty, or holds an eligible task of the given status at one of its locations, reached at the stated time. */
  predicate SlotOk(p: Problem, order: Option<map<int, int>>, st: CtsState, i: int, s: Slot, status: TaskStatus)
    requires 0 <= i < |st.agents|
  {
    s.task == -1 ||
      (&& 0 <= s.task < |st.tasks|
       && Eligible(st.tasks, order, s.task)
       && st.tasks[s.task].status == status
       && s.location in st.tasks[s.task].demand.possibleLocations
       && s.arrival == ArrivalAt(p, st, i, s.location))
  }

  /** Some eligible task of the given status has a location to offer. */
  predicate Offerable(order: Option<map<int, int>>, tasks: seq<Task>, status: TaskStatus, from: nat) {
    exists j :: from <= j < |tasks| && Eligible(tasks, order, j) && tasks[j].status == status && |tasks[j].demand.possibleLocations| > 0
  }

  /**
   * Over one task's locations, the slot either stays or ends on that task at
   * one of the locations scanned; an empty slot always ends on it when it has
   * a location; and a filled slot changes only to a strictly earlier arrival,
   * before the new task's hard deadline, on a task with a strictly earlier
   * hard deadline.
   */
  lemma {:induction false} ScanLocationsFacts(p: Problem, st: CtsState, i: int, j: int, s: Slot, k: nat)
    requires Shaped(st) && 0 <= i < |st.agents| && 0 <= j < |st.tasks| && SlotInRange(st, s)
    requires k <= |st.tasks[j].demand.possibleLocations|
    ensures var r := ScanLocations(p, st, i, j, s, k);
      && (r == s || (r.task == j && r.location in st.tasks[j].demand.possibleLocations[k..] && r.arrival == ArrivalAt(p, st, i, r.location)))
      && (s.task == -1 && k < |st.tasks[j].demand.possibleLocations| ==> r.task == j)
      && (s.task != -1 && r != s ==> r.arrival < s.arrival && r.arrival < HardOf(st, j) && HardOf(st, j) < HardOf(st, s.task))
    decreases |st.tasks[j].demand.possibleLocations| - k
  {
    var locations := st.tasks[j].demand.possibleLocations;
    if k < |locations| {
      var s' := Consider(p, st, i, j, s, locations[k]);
      ScanLocationsFacts(p, st, i, j, s', k + 1);
      var r := ScanLocations(p, st, i, j, s', k + 1);
      assert r == ScanLocations(p, st, i, j, s, k);
      if r != s' {
        assert r.location in locations[k + 1..];
        assert locations[k + 1..] == locations[k..][1..];
      }
      if s' != s {
        assert s'.location == locations[k];
      }
    }
  }

  /**
   * Over the tasks from j on, each slot stays well formed; it ends filled
   * exactly when it started filled or some later eligible task of its status
   * has a location; and once filled, its arrival and its task's hard
   * deadline never increase.
   */
  lemma {:induction false} ScanTasksFacts(p: Problem, order: Option<map<int, int>>, st: CtsState, i: int, j: nat, ss: Slots)
    requires Shaped(st) && 0 <= i < |st.agents| && j <= |st.tasks|
    requires SlotInRange(st, ss.open) && SlotInRange(st, ss.taken)
    requires SlotOk(p, order, st, i, ss.open, UNCOMPLETED) && SlotOk(p, order, st, i, ss.taken, ALLOCATED)
    ensures var r := ScanTasks(p, order, st, i, j, ss);
      && SlotOk(p, order, st, i, r.open, UNCOMPLETED) && SlotOk(p, order, st, i, r.taken, ALLOCATED)
      && (r.open.task > -1 <==> ss.open.task > -1 || Offerable(order, st.tasks, UNCOMPLETED, j))
      && (r.taken.task > -1 <==> ss.taken.task > -1 || Offerable(order, st.tasks, ALLOCATED, j))
      && (ss.open.task > -1 ==> r.open.arrival <= ss.open.arrival && HardOf(st, r.open.task) <= HardOf(st, ss.open.task))
      && (ss.taken.task > -1 ==> r.taken.arrival <= ss.taken.arrival && HardOf(st, r.taken.task) <= HardOf(st, ss.taken.task))
    decreases |st.tasks| - j
  {
    if j < |st.tasks| {
      var next := ss;
      if Eligible(st.tasks, order, j) {
        if st.tasks[j].status == UNCOMPLETED {
          ScanLocationsFacts(p, st, i, j, ss.open, 0);
          next := ss.(open := ScanLocations(p, st, i, j, ss.open, 0));
        } else {
          ScanLocationsFacts(p, st, i, j, ss.taken, 0);
          next := ss.(taken := ScanLocations(p, st, i, j, ss.taken, 0));
        }
      }
      assert ScanTasks(p, order, st, i, j, ss) == ScanTasks(p, order, st, i, j + 1, next);
      ScanTasksFacts(p, order, st, i, j + 1, next);
      OfferableStep(order, st.tasks, UNCOMPLETED, j);
      OfferableStep(order, st.tasks, ALLOCATED, j);
    }
  }

  lemma OfferableStep(order: Option<map<int, int>>, tasks: seq<Task>, status: TaskStatus, j: nat)
    requires j < |tasks|
    ensures Offerable(order, tasks, status, j) <==>
      (Eligible(tasks, order, j) && tasks[j].status == status && |tasks[j].demand.possibleLocations| > 0)
      || Offerable(order, tasks, status, j + 1)
  {
  }

  /**
   * setPotentialAllocationsTo changes nothing when no eligible task has a
   * location. Otherwise it commits agent i to an eligible task, at one of its
   * locations, with the arrival time from the agent's current location; the
   * task is UNCOMPLETED whenever some eligible UNCOMPLETED task has a
   * location.
   */
  lemma PotentialChoice(p: Problem, order: Option<map<int, int>>, st: CtsState, i: int) returns (c: Slot)
    requires Shaped(st) && 0 <= i < |st.agents|
    ensures var r := Potential(p, order, st, i);
      && (!Offerable(order, st.tasks, UNCOMPLETED, 0) && !Offerable(order, st.tasks, ALLOCATED, 0) ==> r == st)
      && (Offerable(order, st.tasks, UNCOMPLETED, 0) || Offerable(order, st.tasks, ALLOCATED, 0) ==>
            && 0 <= c.task < |st.tasks|
            && Eligible(st.tasks, order, c.task)
            && c.location in st.tasks[c.task].demand.possibleLocations
            && c.arrival == ArrivalAt(p, st, i, c.location)
            && r == Commit(st, i, c)
            && (Offerable(order, st.tasks, UNCOMPLETED, 0) ==> st.tasks[c.task].status == UNCOMPLETED))
  {
    var ss := ScanTasks(p, order, st, i, 0, Slots(Unset(p), Unset(p)));
    ScanTasksFacts(p, order, st, i, 0, Slots(Unset(p), Unset(p)));
    c := Chosen(ss);
  }

  /**
   * A committed agent is in the allocable set of its target location, the
   * task is ALLOCABLE, and every other task, agent and map entry is as it was.
   */
  lemma CommitEffect(st: CtsState, i: int, c: Slot)
    requires 0 <= i < |st.agents| && 0 <= c.task < |st.tasks|
    ensures var r := Commit(st, i, c);
      var v := r.tasks[c.task];
      && v.status == ALLOCABLE && v.id == st.tasks[c.task].id
      && c.location in v.allocableMap && st.agents[i].id in v.allocableMap[c.location]
      && (forall l :: l in v.allocableMap && l != c.location ==> l in st.tasks[c.task].allocableMap && v.allocableMap[l] == st.tasks[c.task].allocableMap[l])
      && r.agents[i].target == Some(v.id) && r.agents[i].targetLocation == Some(c.location) && r.agents[i].arrivalTime == c.arrival
      && r.agents[i].status == st.agents[i].status && r.agents[i].location == st.agents[i].location
      && (forall k :: 0 <= k < |st.tasks| && k != c.task ==> r.tasks[k] == st.tasks[k])
      && (forall k :: 0 <= k < |st.agents| && k != i ==> r.agents[k] == st.agents[k])
  {
  }

  /** The scan-and-commit loop of setPotentialAllocationsTo for agent i. */
  method SetPotentialAllocationsTo(p: Problem, order: Option<map<int, int>>, st: CtsState, i: int) returns (next: CtsState)
    requires Shaped(st) && 0 <= i < |st.agents|
    ensures next == Potential(p, order, st, i)
  {
    ghost var goal := ScanTasks(p, order, st, i, 0, Slots(Unset(p), Unset(p)));
    var open, taken := Unset(p), Unset(p);
    var j := 0;
    while j < |st.tasks|
      invariant 0 <= j <= |st.tasks|
      invariant SlotInRange(st, open) && SlotInRange(st, taken)
      invariant ScanTasks(p, order, st, i, j, Slots(open, taken)) == goal
    {
      if Eligible(st.tasks, order, j) {
        var s := if st.tasks[j].status == UNCOMPLETED then open else taken;
        ghost var s0 := s;
        var gamma := st.tasks[j].demand.timeWindow.hardLatestTime;
        var locations := st.tasks[j].demand.possibleLocations;
        for k := 0 to |locations|
          invariant SlotInRange(st, s)
          invariant ScanLocations(p, st, i, j, s, k) == ScanLocations(p, st, i, j, s0, 0)
        {
          var t := st.currentTime + TravelTimeTo(st.agents[i], locations[k], p.travel);
          if s.task == -1 || (t < gamma && t < s.arrival && gamma < st.tasks[s.task].demand.timeWindow.hardLatestTime
            && Outlasts(st, s, t)) {
            s := Slot(j, t, locations[k]);
          }
        }
        if st.tasks[j].status == UNCOMPLETED {
          open := s;
        } else {
          taken := s;
        }
      }
      j := j + 1;
    }
    if open.task > -1 || taken.task > -1 {
      var c := if open.task > -1 then open else taken;
      var v := st.tasks[c.task];
      var a := st.agents[i];
      var joined := Join(v.allocableMap, c.location, a.id);
      next := st.(tasks := st.tasks[c.task := v.(status := ALLOCABLE, allocableMap := joined)],
                  agents := st.agents[i := a.(target := Some(v.id), targetLocation := Some(c.location), arrivalTime := c.arrival)]);
    } else {
      next := st;
    }
  }

  /* ---------- getSingletonSolution ---------- */

  /** The feasible agents' arrival times are raised to the task's earliest time. */
  function ClampArrivals(agents: seq<Agent>, ids: set<int>, earliest: int): (r: seq<Agent>)
    ensures |r| == |agents|
  {
    seq(|agents|, k requires 0 <= k < |agents| =>
      if agents[k].id in ids then agents[k].(arrivalTime := Bnt.Max(agents[k].arrivalTime, earliest)) else agents[k])
  }

  /** The agents with an id in `ids`, in agent order. */
  function Members(agents: seq<Agent>, ids: set<int>): seq<Agent> {
    if |agents| == 0 then []
    else
      var last := agents[|agents| - 1];
      Members(agents[..|agents| - 1], ids) + (if last.id in ids then [last] else [])
  }

  lemma {:induction false} MembersAre(agents: seq<Agent>, ids: set<int>, y: Agent)
    ensures y in Members(agents, ids) <==> y in agents && y.id in ids
  {
    if |agents| > 0 {
      var init := agents[..|agents| - 1];
      MembersAre(init, ids, y);
      assert agents == init + [agents[|agents| - 1]];
    }
  }

  function ArrivalTimes(m: seq<Agent>): (r: seq<int>)
    ensures |r| == |m|
  {
    seq(|m|, k requires 0 <= k < |m| => m[k].arrivalTime)
  }

  /** `Integer.compareTo`: only the sign matters to a tree map. */
  function IntCompare(a: int, b: int): int {
    a - b
  }

  function IntKey(x: int): Key {
    Key(x, 0)
  }

  /** The keys of the TreeMap from arrival time to agents. */
  function ArrivalKeys(m: seq<Agent>): seq<int> {
    TreeOf(ArrivalTimes(m), IntCompare)
  }

  /** The members that have arrived by time t, in agent order. */
  function ArrivedBy(m: seq<Agent>, t: int): seq<Agent> {
    if |m| == 0 then []
    else
      var last := m[|m| - 1];
      ArrivedBy(m[..|m| - 1], t) + (if last.arrivalTime <= t then [last] else [])
  }

  lemma {:induction false} ArrivedByAre(m: seq<Agent>, t: int, y: Agent)
    ensures y in ArrivedBy(m, t) <==> y in m && y.arrivalTime <= t
  {
    if |m| > 0 {
      var init := m[..|m| - 1];
      ArrivedByAre(init, t, y);
      assert m == init + [m[|m| - 1]];
    }
  }

  /** Step k of the growth: the k-th distinct arrival time, with every member arrived by then; work starts one unit later. */
  function GroupSteps(v: Task, location: Location, m: seq<Agent>): Growth.Steps {
    var keys := ArrivalKeys(m);
    Growth.Steps(v, location, keys, seq(|keys|, k requires 0 <= k < |keys| => ArrivedBy(m, keys[k])), 1)
  }

  /**
   * The keys are the members' arrival times, each once, in increasing order:
   * every key is some member's arrival time and every member's arrival time
   * is a key.
   */
  lemma ArrivalKeysFacts(m: seq<Agent>)
    ensures var keys := ArrivalKeys(m);
      && (forall a, b :: 0 <= a < b < |keys| ==> keys[a] < keys[b])
      && (forall k :: 0 <= k < |keys| ==> exists x :: x in m && x.arrivalTime == keys[k])
      && (forall x :: x in m ==> x.arrivalTime in keys)
  {
    var xs := ArrivalTimes(m);
    var keys := ArrivalKeys(m);
    assert KeyedBy(IntCompare, IntKey);
    TreeOfKeyed(xs, IntCompare, IntKey);
    TreeOfSubMultiset(xs, IntCompare);
    forall a, b | 0 <= a < b < |keys|
      ensures keys[a] < keys[b]
    {
      assert KeyLess(IntKey(keys[a]), IntKey(keys[b]));
    }
    forall k | 0 <= k < |keys|
      ensures exists x :: x in m && x.arrivalTime == keys[k]
    {
      assert keys[k] in multiset(keys);
      assert keys[k] in multiset(xs);
      var j :| 0 <= j < |xs| && xs[j] == keys[k];
      assert m[j] in m;
    }
    forall x | x in m
      ensures x.arrivalTime in keys
    {
      var j :| 0 <= j < |m| && m[j] == x;
      assert HasKey(keys, IntKey, IntKey(xs[j]));
    }
  }

  /** Every step has at least one member, so its value is positive. */
  lemma GroupsWellFormed(p: Problem, v: Task, location: Location, m: seq<Agent>)
    requires Bnt.Ready(p, v)
    ensures Growth.WellFormed(GroupSteps(v, location, m), p.value)
    ensures forall k :: 0 <= k < |GroupSteps(v, location, m).subs| ==> |GroupSteps(v, location, m).subs[k]| > 0
  {
    var st := GroupSteps(v, location, m);
    ArrivalKeysFacts(m);
    forall k | 0 <= k < |st.subs|
      ensures |st.subs[k]| > 0
    {
      var x :| x in m && x.arrivalTime == st.arrivals[k];
      ArrivedByAre(m, st.arrivals[k], x);
    }
  }

  /**
   * CTS's one-task solution for the task at one location from the agents with
   * an id in `ids`: their arrival times are clamped to the earliest time (and
   * stay so), they are grouped by arrival time, and the growth runs over the
   * groups with work starting one unit after each arrival.
   */
  function CtsCandidate(p: Problem, agents: seq<Agent>, v: Task, location: Location, ids: set<int>)
    : (r: (Option<Solution>, seq<Agent>))
    requires Bnt.Ready(p, v)
    ensures |r.1| == |agents| && Ids(r.1) == Ids(agents)
  {
    var updated := ClampArrivals(agents, ids, v.demand.timeWindow.earliestTime);
    var m := Members(updated, ids);
    GroupsWellFormed(p, v, location, m);
    (Growth.GrowAll(GroupSteps(v, location, m), p.value), updated)
  }

  /** The solution is the closed-form outcome of the first group whose work reaches the workload. */
  lemma CtsCandidateOutcome(p: Problem, agents: seq<Agent>, v: Task, location: Location, ids: set<int>) returns (i: nat)
    requires Bnt.Ready(p, v) && CtsCandidate(p, agents, v, location, ids).0.Some?
    ensures var st := GroupSteps(v, location, Members(ClampArrivals(agents, ids, v.demand.timeWindow.earliestTime), ids));
      && Growth.WellFormed(st, p.value)
      && Growth.FirstCrossing(st, p.value, i)
      && Growth.EndAt(st, p.value, i) <= v.demand.timeWindow.hardLatestTime
      && CtsCandidate(p, agents, v, location, ids).0 == Some(Growth.Outcome(st, p.value, i))
  {
    var st := GroupSteps(v, location, Members(ClampArrivals(agents, ids, v.demand.timeWindow.earliestTime), ids));
    GroupsWellFormed(p, v, location, Members(ClampArrivals(agents, ids, v.demand.timeWindow.earliestTime), ids));
    Growth.GrowCharacterisation(st, p.value);
    i :| Growth.FirstCrossing(st, p.value, i) && Growth.EndAt(st, p.value, i) <= v.demand.timeWindow.hardLatestTime;
  }

  /** The keys are increasing, and every member's (clamped) arrival time is a key. */
  ghost predicate KeysCover(v: Task, m: seq<Agent>, keys: seq<int>) {
    && (forall a, b :: 0 <= a < b < |keys| ==> keys[a] < keys[b])
    && (forall x :: x in m ==> x.arrivalTime in keys && x.arrivalTime >= v.demand.timeWindow.earliestTime)
  }

  /**
   * The k-th allocation is at the location, with the members that arrived by
   * the k-th key, starting one unit after that key but not before the
   * earliest time.
   */
  ghost predicate GroupedAllocations(v: Task, location: Location, m: seq<Agent>, keys: seq<int>, cas: seq<CoalitionAllocation>) {
    && 0 < |cas| <= |keys|
    && forall k :: 0 <= k < |cas| ==>
         && cas[k].task == v && cas[k].location == location
         && (forall y :: y in cas[k].coalition <==> y in m && y.arrivalTime <= keys[k])
         && cas[k].startTime == Bnt.Max(keys[k] + 1, v.demand.timeWindow.earliestTime)
  }

  /** The solution covers exactly the task, completes at its last end time by the hard deadline, and stores the recomputed score. */
  ghost predicate OneTask(v: Task, s: Solution) {
    && s.tasks == {v.id}
    && |s.coalitionAllocations| > 0
    && LastWorkingTime(s) <= v.demand.timeWindow.hardLatestTime
    && s.taskCompletionTime == map[v.id := LastWorkingTime(s)]
    && AllScorable(s.coalitionAllocations) && s.score == ScoreOf(s.coalitionAllocations)
  }

  /** A one-task solution built from the members m, grouped by their arrival times. */
  ghost predicate Grouped(v: Task, location: Location, m: seq<Agent>, s: Solution) {
    var keys := ArrivalKeys(m);
    KeysCover(v, m, keys) && GroupedAllocations(v, location, m, keys, s.coalitionAllocations) && OneTask(v, s)
  }

  lemma GroupOutcome(p: Problem, v: Task, location: Location, m: seq<Agent>, i: nat)
    requires Bnt.Ready(p, v) && Growth.WellFormed(GroupSteps(v, location, m), p.value)
    requires Growth.FirstCrossing(GroupSteps(v, location, m), p.value, i)
    requires Growth.EndAt(GroupSteps(v, location, m), p.value, i) <= v.demand.timeWindow.hardLatestTime
    requires forall x :: x in m ==> x.arrivalTime >= v.demand.timeWindow.earliestTime
    ensures Grouped(v, location, m, Growth.Outcome(GroupSteps(v, location, m), p.value, i))
  {
    var st := GroupSteps(v, location, m);
    var s := Growth.Outcome(st, p.value, i);
    ArrivalKeysFacts(m);
    assert KeysCover(v, m, st.arrivals);
    OutcomeOneTask(p, st, i, v);
    OutcomeGrouped(p, v, location, m, st, i);
  }

  lemma OutcomeOneTask(p: Problem, st: Growth.Steps, i: nat, v: Task)
    requires Growth.WellFormed(st, p.value) && i < |st.arrivals| && st.task == v
    requires Growth.EndAt(st, p.value, i) <= v.demand.timeWindow.hardLatestTime
    ensures OneTask(v, Growth.Outcome(st, p.value, i))
  {
    Growth.OutcomeShape(st, p.value, i);
    assert Growth.Outcome(st, p.value, i).coalitionAllocations[i] == Growth.FinalAllocation(st, p.value, i);
  }

  lemma OutcomeGrouped(p: Problem, v: Task, location: Location, m: seq<Agent>, st: Growth.Steps, i: nat)
    requires st == GroupSteps(v, location, m)
    requires Growth.WellFormed(st, p.value) && i < |st.arrivals|
    ensures GroupedAllocations(v, location, m, st.arrivals, Growth.Outcome(st, p.value, i).coalitionAllocations)
  {
    Growth.OutcomeShape(st, p.value, i);
    var cas := Growth.Outcome(st, p.value, i).coalitionAllocations;
    GroupAllocations(v, location, m, st, cas);
  }

  /** Allocations that use the steps' groups and start times are grouped by arrival as `Grouped` states. */
  lemma GroupAllocations(v: Task, location: Location, m: seq<Agent>, st: Growth.Steps, cas: seq<CoalitionAllocation>)
    requires st == GroupSteps(v, location, m) && |cas| <= |st.arrivals|
    requires forall k :: 0 <= k < |cas| ==> cas[k].coalition == st.subs[k] && cas[k].startTime == Growth.StartAt(st, k)
    ensures forall k :: 0 <= k < |cas| ==>
      && (forall y :: y in cas[k].coalition <==> y in m && y.arrivalTime <= st.arrivals[k])
      && cas[k].startTime == Bnt.Max(st.arrivals[k] + 1, v.demand.timeWindow.earliestTime)
  {
    forall k, y | 0 <= k < |cas|
      ensures y in cas[k].coalition <==> y in m && y.arrivalTime <= st.arrivals[k]
    {
      ArrivedByAre(m, st.arrivals[k], y);
    }
  }

  /** After clamping, every feasible agent arrives at or after the earliest time. */
  lemma MembersClamped(agents: seq<Agent>, ids: set<int>, earliest: int)
    ensures forall x :: x in Members(ClampArrivals(agents, ids, earliest), ids) ==> x.arrivalTime >= earliest
  {
    var updated := ClampArrivals(agents, ids, earliest);
    forall x | x in Members(updated, ids)
      ensures x.arrivalTime >= earliest
    {
      MembersAre(updated, ids, x);
      var j :| 0 <= j < |updated| && updated[j] == x;
    }
  }

  /** CTS's one-task solution is grouped by arrival time as described by `Grouped`. */
  lemma CtsCandidateShape(p: Problem, agents: seq<Agent>, v: Task, location: Location, ids: set<int>)
    requires Bnt.Ready(p, v) && CtsCandidate(p, agents, v, location, ids).0.Some?
    ensures Grouped(v, location, Members(ClampArrivals(agents, ids, v.demand.timeWindow.earliestTime), ids),
      CtsCandidate(p, agents, v, location, ids).0.value)
  {
    var m := Members(ClampArrivals(agents, ids, v.demand.timeWindow.earliestTime), ids);
    var i := CtsCandidateOutcome(p, agents, v, location, ids);
    MembersClamped(agents, ids, v.demand.timeWindow.earliestTime);
    GroupOutcome(p, v, location, m, i);
  }

  /**
   * For a consistent window and one of the task's locations, every
   * allocation of a grouped outcome passes the allocation checks and ends by
   * the hard deadline.
   */
  lemma GroupOutcomeValid(p: Problem, v: Task, location: Location, m: seq<Agent>, i: nat)
    requires Bnt.Ready(p, v) && Growth.WellFormed(GroupSteps(v, location, m), p.value)
    requires forall k :: 0 <= k < |GroupSteps(v, location, m).subs| ==> |GroupSteps(v, location, m).subs[k]| > 0
    requires Growth.FirstCrossing(GroupSteps(v, location, m), p.value, i)
    requires Growth.EndAt(GroupSteps(v, location, m), p.value, i) <= v.demand.timeWindow.hardLatestTime
    requires forall x :: x in m ==> x.arrivalTime >= v.demand.timeWindow.earliestTime
    requires TimeWindows.Valid(v.demand.timeWindow) && location in v.demand.possibleLocations
    ensures var cas := Growth.Outcome(GroupSteps(v, location, m), p.value, i).coalitionAllocations;
      forall k :: 0 <= k < |cas| ==> Allocations.Valid(cas[k]) && cas[k].endTime <= v.demand.timeWindow.hardLatestTime
  {
    var earliest := v.demand.timeWindow.earliestTime;
    var st := GroupSteps(v, location, m);
    ArrivalKeysFacts(m);
    forall k | 0 <= k < |st.arrivals|
      ensures 0 <= st.arrivals[k] && earliest <= st.arrivals[k]
    {
      var x :| x in m && x.arrivalTime == st.arrivals[k];
    }
    StepsValid(p, st, i);
  }

  /**
   * Increasing arrivals at or after the earliest time, non-empty groups, one
   * of the task's locations and an end by the hard deadline: every
   * allocation of the outcome is valid and ends by the hard deadline.
   */
  lemma StepsValid(p: Problem, st: Growth.Steps, i: nat)
    requires Growth.WellFormed(st, p.value) && i < |st.arrivals| && st.offset == 1
    requires forall k :: 0 <= k < |st.subs| ==> |st.subs[k]| > 0
    requires forall k :: 0 <= k < |st.arrivals| ==> 0 <= st.arrivals[k] && st.task.demand.timeWindow.earliestTime <= st.arrivals[k]
    requires forall a, b :: 0 <= a < b < |st.arrivals| ==> st.arrivals[a] < st.arrivals[b]
    requires st.location in st.task.demand.possibleLocations
    requires Growth.EndAt(st, p.value, i) <= st.task.demand.timeWindow.hardLatestTime
    ensures var cas := Growth.Outcome(st, p.value, i).coalitionAllocations;
      forall k :: 0 <= k < |cas| ==> Allocations.Valid(cas[k]) && cas[k].endTime <= st.task.demand.timeWindow.hardLatestTime
  {
    Growth.OutcomeAllocationsValid(st, p.value, i);
    StepsWithinDeadline(p, st, i);
  }

  lemma StepsWithinDeadline(p: Problem, st: Growth.Steps, i: nat)
    requires Growth.WellFormed(st, p.value) && i < |st.arrivals| && st.offset == 1
    requires forall a, b :: 0 <= a < b < |st.arrivals| ==> st.arrivals[a] < st.arrivals[b]
    requires Growth.EndAt(st, p.value, i) <= st.task.demand.timeWindow.hardLatestTime
    ensures var cas := Growth.Outcome(st, p.value, i).coalitionAllocations;
      forall k :: 0 <= k < |cas| ==> cas[k].endTime <= st.task.demand.timeWindow.hardLatestTime
  {
    Growth.OutcomeShape(st, p.value, i);
    var cas := Growth.Outcome(st, p.value, i).coalitionAllocations;
    assert cas[i] == Growth.FinalAllocation(st, p.value, i);
    assert cas[i].startTime >= st.arrivals[i] + 1;
    forall k | 0 <= k < i
      ensures cas[k].endTime <= st.task.demand.timeWindow.hardLatestTime
    {
      assert cas[k].endTime == st.arrivals[k + 1];
      assert st.arrivals[k + 1] <= st.arrivals[i];
    }
  }

  lemma CtsCandidateValid(p: Problem, agents: seq<Agent>, v: Task, location: Location, ids: set<int>)
    requires Bnt.Ready(p, v) && CtsCandidate(p, agents, v, location, ids).0.Some?
    requires TimeWindows.Valid(v.demand.timeWindow) && location in v.demand.possibleLocations
    ensures var cas := CtsCandidate(p, agents, v, location, ids).0.value.coalitionAllocations;
      forall k :: 0 <= k < |cas| ==> Allocations.Valid(cas[k]) && cas[k].endTime <= v.demand.timeWindow.hardLatestTime
  {
    var m := Members(ClampArrivals(agents, ids, v.demand.timeWindow.earliestTime), ids);
    var i := CtsCandidateOutcome(p, agents, v, location, ids);
    GroupsWellFormed(p, v, location, m);
    MembersClamped(agents, ids, v.demand.timeWindow.earliestTime);
    GroupOutcomeValid(p, v, location, m, i);
  }

  /** The clamping loop: each feasible agent's arrival raised to the earliest time, and the list of those agents. */
  method ClampFeasible(agents: seq<Agent>, ids: set<int>, earliest: int) returns (updated: seq<Agent>, m: seq<Agent>)
    ensures updated == ClampArrivals(agents, ids, earliest)
    ensures m == Members(updated, ids)
  {
    ghost var clamped := ClampArrivals(agents, ids, earliest);
    updated := agents;
    m := [];
    for k := 0 to |agents|
      invariant |updated| == |agents|
      invariant forall j :: 0 <= j < k ==> updated[j] == clamped[j]
      invariant forall j :: k <= j < |agents| ==> updated[j] == agents[j]
      invariant m == Members(clamped[..k], ids)
    {
      assert clamped[..k + 1][..k] == clamped[..k];
      if agents[k].id in ids {
        var a := agents[k].(arrivalTime := Bnt.Max(agents[k].arrivalTime, earliest));
        updated := updated[k := a];
        m := m + [a];
      }
    }
    assert clamped[..|agents|] == clamped;
    assert updated == clamped;
  }

  /** The tree map of arrival times: the distinct arrival times in increasing order. */
  method ArrivalTree(m: seq<Agent>) returns (keys: seq<int>)
    ensures keys == TreeOf(ArrivalTimes(m), IntCompare)
  {
    keys := [];
    for k := 0 to |m|
      invariant keys == TreeOf(ArrivalTimes(m[..k]), IntCompare)
    {
      assert ArrivalTimes(m[..k + 1])[..k] == ArrivalTimes(m[..k]);
      keys := TreeAdd(keys, m[k].arrivalTime, IntCompare);
    }
    assert m[..|m|] == m;
  }

  /** For each key, the agents arrived by it, in list order. */
  method GroupsOf(m: seq<Agent>, keys: seq<int>) returns (subs: seq<seq<Agent>>)
    ensures |subs| == |keys|
    ensures forall j :: 0 <= j < |keys| ==> subs[j] == ArrivedBy(m, keys[j])
  {
    subs := [];
    for k := 0 to |keys|
      invariant |subs| == k
      invariant forall j :: 0 <= j < k ==> subs[j] == ArrivedBy(m, keys[j])
    {
      var group: seq<Agent> := [];
      for q := 0 to |m|
        invariant group == ArrivedBy(m[..q], keys[k])
      {
        assert m[..q + 1][..q] == m[..q];
        if m[q].arrivalTime <= keys[k] {
          group := group + [m[q]];
        }
      }
      assert m[..|m|] == m;
      subs := subs + [group];
    }
  }

  /**
   * getSingletonSolution(task, location, feasibleAgents): the clamping loop
   * over the feasible agents, the tree map of arrival times, the groups of
   * agents arrived by each key, and the growth with work starting one unit
   * after each arrival.
   */
  method GetSingletonSolution(p: Problem, agents: seq<Agent>, v: Task, location: Location, ids: set<int>)
    returns (sol: Option<Solution>, updated: seq<Agent>)
    requires Bnt.Ready(p, v)
    ensures (sol, updated) == CtsCandidate(p, agents, v, location, ids)
  {
    var m;
    updated, m := ClampFeasible(agents, ids, v.demand.timeWindow.earliestTime);
    var keys := ArrivalTree(m);
    var subs := GroupsOf(m, keys);
    var steps := Growth.Steps(v, location, keys, subs, 1);
    assert steps == GroupSteps(v, location, m);
    GroupsWellFormed(p, v, location, m);
    sol := Growth.GrowCoalition(steps, p.value);
  }

  /* ---------- solve: one tick ---------- */

  /** What every step of a tick keeps: task ids and demands, the number of agents and of solution slots, and the clock. */
  predicate Kept(st: CtsState, r: CtsState) {
    && SameTasks(st.tasks, r.tasks)
    && |r.singletons| == |st.singletons|
    && |r.agents| == |st.agents|
    && r.currentTime == st.currentTime
  }

  function LocationOr(o: Option<Location>, otherwise: Location): Location {
    if o.Some? then o.value else otherwise
  }

  /** The agents of task i's current solution that target the location (by their present target). */
  function Prior(st: CtsState, i: int, location: Location): set<int>
    requires Shaped(st) && 0 <= i < |st.tasks|
  {
    if st.singletons[i].None? then {}
    else
      set k | 0 <= k < |st.agents| && st.agents[k].id in st.singletons[i].value.agents
                && st.agents[k].targetLocation == Some(location) :: st.agents[k].id
  }

  /**
   * Location k of an ALLOCABLE task i: skipped when no agent is allocable
   * there; otherwise the one-task solution from the allocable agents and
   * those of the current solution that target the location replaces the
   * current one only when it has a strictly higher stored score.
   */
  function ImproveAt(p: Problem, st: CtsState, i: int, k: nat): (r: CtsState)
    requires Ready(p, st) && 0 <= i < |st.tasks| && k < |st.tasks[i].demand.possibleLocations|
    ensures Kept(st, r) && r.tasks == st.tasks && r.completedCount == st.completedCount
  {
    var v := st.tasks[i];
    var location := v.demand.possibleLocations[k];
    var allocable := if location in v.allocableMap then v.allocableMap[location] else {};
    if |allocable| == 0 then st
    else
      var c := CtsCandidate(p, st.agents, v, location, allocable + Prior(st, i, location));
      var better := c.0.Some? && (st.singletons[i].None? || c.0.value.score > st.singletons[i].value.score);
      st.(agents := c.1, singletons := if better then st.singletons[i := c.0] else st.singletons)
  }

  /** The locations of task i from the k-th on. */
  function Improve(p: Problem, st: CtsState, i: int, k: nat): (r: CtsState)
    requires Ready(p, st) && 0 <= i < |st.tasks| && k <= |st.tasks[i].demand.possibleLocations|
    ensures Kept(st, r) && r.tasks == st.tasks && r.completedCount == st.completedCount
    decreases |st.tasks[i].demand.possibleLocations| - k
  {
    if k == |st.tasks[i].demand.possibleLocations| then st
    else Improve(p, ImproveAt(p, st, i, k), i, k + 1)
  }

  /** The agents with an id in `ids` start working (moving to their target location) once arrived, and travel otherwise. */
  function Dispatch(agents: seq<Agent>, ids: set<int>, now: int): (r: seq<Agent>)
    ensures |r| == |agents|
  {
    seq(|agents|, k requires 0 <= k < |agents| =>
      var a := agents[k];
      if a.id !in ids then a
      else if a.arrivalTime <= now then a.(status := WORKING, location := LocationOr(a.targetLocation, a.location))
      else a.(status := TRAVELING))
  }

  /** The agents with an id in `ids` become IDLE with no target. */
  function Release(agents: seq<Agent>, ids: set<int>): (r: seq<Agent>)
    ensures |r| == |agents|
  {
    seq(|agents|, k requires 0 <= k < |agents| =>
      if agents[k].id in ids then agents[k].(status := IDLE, target := None, targetLocation := None) else agents[k])
  }

  /**
   * After its locations: the allocable map of task i is reset; with a
   * solution its agents are dispatched and the task is ALLOCATED, without one
   * it is UNCOMPLETED again.
   */
  function Settle(st: CtsState, i: int): (r: CtsState)
    requires Shaped(st) && 0 <= i < |st.tasks|
    ensures Kept(st, r) && r.singletons == st.singletons && r.completedCount == st.completedCount
  {
    var v := Reset(st.tasks[i]);
    if st.singletons[i].Some? then
      st.(tasks := st.tasks[i := v.(status := ALLOCATED)],
          agents := Dispatch(st.agents, st.singletons[i].value.agents, st.currentTime))
    else st.(tasks := st.tasks[i := v.(status := UNCOMPLETED)])
  }

  /** An ALLOCATED task whose solution has completed by now becomes COMPLETED, releasing its agents, and is counted. */
  function Complete(st: CtsState, i: int): (r: CtsState)
    requires Shaped(st) && 0 <= i < |st.tasks|
    ensures Kept(st, r) && r.singletons == st.singletons
  {
    var v := st.tasks[i];
    var s := st.singletons[i];
    if v.status == ALLOCATED && s.Some? && v.id in s.value.taskCompletionTime
      && s.value.taskCompletionTime[v.id] <= st.currentTime
    then
      st.(agents := Release(st.agents, s.value.agents),
          tasks := st.tasks[i := v.(status := COMPLETED)],
          completedCount := st.completedCount + 1)
    else st
  }

  /** The body of the task loop for task i. */
  function TaskStep(p: Problem, st: CtsState, i: int): (r: CtsState)
    requires Ready(p, st) && 0 <= i < |st.tasks|
    ensures Kept(st, r)
  {
    var st' := if st.tasks[i].status == ALLOCABLE then Settle(Improve(p, st, i, 0), i) else st;
    Complete(st', i)
  }

  /** The task loop from task i on. */
  function TasksFrom(p: Problem, st: CtsState, i: nat): (r: CtsState)
    requires Ready(p, st) && i <= |st.tasks|
    ensures Kept(st, r)
    decreases |st.tasks| - i
  {
    if i == |st.tasks| then st
    else
      var st' := TaskStep(p, st, i);
      ReadyKept(p, st, st');
      TasksFrom(p, st', i + 1)
  }

  /**
   * The body of the agent loop for agent i: an idle agent is offered a task;
   * a travelling agent with a target becomes IDLE (and loses its target) when
   * the target is COMPLETED, and otherwise starts WORKING at its target
   * location once its arrival time is past.
   */
  function AgentStep(p: Problem, order: Option<map<int, int>>, st: CtsState, i: int): (r: CtsState)
    requires Shaped(st) && 0 <= i < |st.agents|
    ensures Kept(st, r) && r.singletons == st.singletons && r.completedCount == st.completedCount
  {
    var a := st.agents[i];
    if a.status == IDLE then Potential(p, order, st, i)
    else if a.target.Some? && a.status == TRAVELING then
      var k := FindTask(st.tasks, a.target.value);
      if k >= 0 && st.tasks[k].status == COMPLETED then st.(agents := st.agents[i := a.(status := IDLE, target := None)])
      else if a.arrivalTime < st.currentTime then
        st.(agents := st.agents[i := a.(status := WORKING, location := LocationOr(a.targetLocation, a.location))])
      else st
    else st
  }

  /** The agent loop from agent i on. */
  function AgentsFrom(p: Problem, order: Option<map<int, int>>, st: CtsState, i: nat): (r: CtsState)
    requires Shaped(st) && i <= |st.agents|
    ensures Kept(st, r) && r.singletons == st.singletons && r.completedCount == st.completedCount
    decreases |st.agents| - i
  {
    if i == |st.agents| then st else AgentsFrom(p, order, AgentStep(p, order, st, i), i + 1)
  }

  /** One tick: the agent loop, then the task loop. */
  function Tick(p: Problem, order: Option<map<int, int>>, st: CtsState): (r: CtsState)
    requires Ready(p, st)
    ensures Kept(st, r)
  {
    var st' := AgentsFrom(p, order, st, 0);
    ReadyKept(p, st, st');
    TasksFrom(p, st', 0)
  }

  /**
   * The do-while loop: after a tick it goes on while some agent is busy and
   * not every task is completed, advancing the clock, as long as the clock is
   * within the horizon.
   */
  function Run(p: Problem, order: Option<map<int, int>>, st: CtsState): (r: CtsState)
    requires Ready(p, st)
    ensures SameTasks(st.tasks, r.tasks) && |r.agents| == |st.agents| && |r.singletons| == |st.singletons|
    decreases p.maximumProblemCompletionTime - st.currentTime
  {
    var s := Tick(p, order, st);
    ReadyKept(p, st, s);
    if Busy(s.agents) && s.completedCount < |s.tasks| then
      var s' := s.(currentTime := s.currentTime + 1);
      if s'.currentTime <= p.maximumProblemCompletionTime then Run(p, order, s') else s'
    else s
  }

  /** The state `solve` starts from: no solution for any task, nothing completed, the clock where it is. */
  function Start(tasks: seq<Task>, agents: seq<Agent>, currentTime: int): (r: CtsState)
    ensures Shaped(r)
  {
    CtsState(tasks, agents, seq(|tasks|, _ => None), currentTime, 0)
  }

  /* ---------- what solve keeps true ---------- */

  /** Every possible location of every task has an allocable set, so the source's map lookups never miss. */
  ghost predicate MapsCover(tasks: seq<Task>) {
    forall k, l :: 0 <= k < |tasks| && l in tasks[k].demand.possibleLocations ==> l in tasks[k].allocableMap
  }

  /**
   * A solution held for task v is one CTS built for it: a one-task
   * solution whose allocations are all for v and, for a consistent window,
   * are valid and end by the hard deadline.
   */
  ghost predicate Holds(v: Task, s: Solution) {
    && OneTask(v, s)
    && (forall k :: 0 <= k < |s.coalitionAllocations| ==>
          s.coalitionAllocations[k].task.id == v.id && s.coalitionAllocations[k].task.demand == v.demand)
    && (TimeWindows.Valid(v.demand.timeWindow) ==>
          forall k :: 0 <= k < |s.coalitionAllocations| ==>
            Allocations.Valid(s.coalitionAllocations[k]) && s.coalitionAllocations[k].endTime <= v.demand.timeWindow.hardLatestTime)
  }

  /** Every solution held was built for its task. */
  ghost predicate AllHold(t0: seq<Task>, ss: seq<Option<Solution>>) {
    |ss| == |t0| && forall k :: 0 <= k < |ss| && ss[k].Some? ==> Holds(t0[k], ss[k].value)
  }

  /** The task indices COMPLETED now that were not COMPLETED when `solve` began. */
  function NewlyCompleted(t0: seq<Task>, tasks: seq<Task>): set<int> {
    set k | 0 <= k < |tasks| && k < |t0| && tasks[k].status == COMPLETED && t0[k].status != COMPLETED
  }

  /**
   * The invariant of `solve`, against the tasks t0 it started from: one slot
   * per task; ids and demands unchanged; allocable maps cover the
   * locations; every held solution was built for its task; COMPLETED stays
   * COMPLETED; the counter is the number of tasks completed since the start;
   * and each of those has a solution that completed by the current time.
   */
  ghost predicate Wf(t0: seq<Task>, st: CtsState) {
    && Shaped(st) && SameTasks(t0, st.tasks) && MapsCover(st.tasks)
    && AllHold(t0, st.singletons)
    && (forall k :: 0 <= k < |st.tasks| && t0[k].status == COMPLETED ==> st.tasks[k].status == COMPLETED)
    && st.completedCount == |NewlyCompleted(t0, st.tasks)|
    && (forall k :: k in NewlyCompleted(t0, st.tasks) ==>
          && st.singletons[k].Some? && t0[k].id in st.singletons[k].value.taskCompletionTime
          && st.singletons[k].value.taskCompletionTime[t0[k].id] <= st.currentTime)
  }

  /** The invariant as one fact, for the proofs that only pass it along. */
  ghost predicate Inv(t0: seq<Task>, st: CtsState) {
    Wf(t0, st)
  }

  /** A step that changes no status, no map and no solution, and keeps the clock, keeps the invariant. */
  lemma AgentsOnlyWf(t0: seq<Task>, st: CtsState, r: CtsState)
    requires Wf(t0, st) && r.tasks == st.tasks && r.singletons == st.singletons
    requires r.completedCount == st.completedCount && r.currentTime == st.currentTime
    ensures Wf(t0, r)
  {
  }

  /** Offering an agent only turns an UNCOMPLETED or ALLOCATED task into ALLOCABLE, with one more key at most. */
  lemma PotentialWf(p: Problem, order: Option<map<int, int>>, t0: seq<Task>, st: CtsState, i: int)
    requires Wf(t0, st) && 0 <= i < |st.agents|
    ensures Wf(t0, Potential(p, order, st, i))
  {
    var c := PotentialChoice(p, order, st, i);
    var r := Potential(p, order, st, i);
    if r != st {
      assert r == Commit(st, i, c);
      CommitEffect(st, i, c);
      assert st.tasks[c.task].status != COMPLETED;
      assert NewlyCompleted(t0, r.tasks) == NewlyCompleted(t0, st.tasks);
      forall k, l | 0 <= k < |r.tasks| && l in r.tasks[k].demand.possibleLocations
        ensures l in r.tasks[k].allocableMap
      {
        if k == c.task {
          assert l in st.tasks[k].allocableMap;
        }
      }
    }
  }

  lemma AgentStepWf(p: Problem, order: Option<map<int, int>>, t0: seq<Task>, st: CtsState, i: int)
    requires Wf(t0, st) && 0 <= i < |st.agents|
    ensures Wf(t0, AgentStep(p, order, st, i))
  {
    if st.agents[i].status == IDLE {
      PotentialWf(p, order, t0, st, i);
    } else {
      AgentsOnlyWf(t0, st, AgentStep(p, order, st, i));
    }
  }

  lemma {:induction false} AgentsFromWf(p: Problem, order: Option<map<int, int>>, t0: seq<Task>, st: CtsState, i: nat)
    requires Wf(t0, st) && i <= |st.agents|
    ensures Wf(t0, AgentsFrom(p, order, st, i))
    decreases |st.agents| - i
  {
    if i < |st.agents| {
      AgentStepWf(p, order, t0, st, i);
      AgentsFromWf(p, order, t0, AgentStep(p, order, st, i), i + 1);
    }
  }

  /** A candidate for one of task i's locations is a solution CTS built for task i. */
  lemma CandidateHolds(p: Problem, t0: seq<Task>, st: CtsState, i: int, location: Location, ids: set<int>)
    requires Wf(t0, st) && Ready(p, st) && 0 <= i < |st.tasks|
    requires location in st.tasks[i].demand.possibleLocations
    requires CtsCandidate(p, st.agents, st.tasks[i], location, ids).0.Some?
    ensures Holds(t0[i], CtsCandidate(p, st.agents, st.tasks[i], location, ids).0.value)
  {
    var v := st.tasks[i];
    var s := CtsCandidate(p, st.agents, v, location, ids).0.value;
    CtsCandidateShape(p, st.agents, v, location, ids);
    assert OneTask(v, s);
    assert v.id == t0[i].id && v.demand == t0[i].demand;
    if TimeWindows.Valid(v.demand.timeWindow) {
      CtsCandidateValid(p, st.agents, v, location, ids);
    }
  }

  lemma ImproveAtWf(p: Problem, t0: seq<Task>, st: CtsState, i: int, k: nat)
    requires Wf(t0, st) && Ready(p, st) && 0 <= i < |st.tasks| && k < |st.tasks[i].demand.possibleLocations|
    requires st.tasks[i].status == ALLOCABLE
    ensures Wf(t0, ImproveAt(p, st, i, k))
  {
    var v := st.tasks[i];
    var location := v.demand.possibleLocations[k];
    var allocable := if location in v.allocableMap then v.allocableMap[location] else {};
    if |allocable| != 0 {
      var ids := allocable + Prior(st, i, location);
      var c := CtsCandidate(p, st.agents, v, location, ids);
      var r := ImproveAt(p, st, i, k);
      assert i !in NewlyCompleted(t0, st.tasks);
      if r.singletons == st.singletons {
        AgentsOnlyWf(t0, st, r);
      } else {
        CandidateHolds(p, t0, st, i, location, ids);
        SlotReplacedWf(t0, st, r, i, c.0.value);
      }
    }
  }

  /** A new solution that holds for task i, which is not newly completed, may take slot i. */
  lemma SlotReplacedWf(t0: seq<Task>, st: CtsState, r: CtsState, i: int, s: Solution)
    requires Wf(t0, st) && 0 <= i < |st.tasks| && i !in NewlyCompleted(t0, st.tasks) && Holds(t0[i], s)
    requires r.tasks == st.tasks && r.singletons == st.singletons[i := Some(s)]
    requires r.completedCount == st.completedCount && r.currentTime == st.currentTime
    ensures Wf(t0, r)
  {
  }

  lemma {:induction false} ImproveWf(p: Problem, t0: seq<Task>, st: CtsState, i: int, k: nat)
    requires Wf(t0, st) && Ready(p, st) && 0 <= i < |st.tasks| && k <= |st.tasks[i].demand.possibleLocations|
    requires st.tasks[i].status == ALLOCABLE
    ensures Wf(t0, Improve(p, st, i, k))
    decreases |st.tasks[i].demand.possibleLocations| - k
  {
    if k < |st.tasks[i].demand.possibleLocations| {
      ImproveAtWf(p, t0, st, i, k);
      var st' := ImproveAt(p, st, i, k);
      ReadyKept(p, st, st');
      ImproveWf(p, t0, st', i, k + 1);
    }
  }

  /** Settling an ALLOCABLE task resets its map and makes it ALLOCATED or UNCOMPLETED, never COMPLETED. */
  lemma SettleWf(t0: seq<Task>, st: CtsState, i: int)
    requires Wf(t0, st) && 0 <= i < |st.tasks| && st.tasks[i].status == ALLOCABLE
    ensures Wf(t0, Settle(st, i))
  {
    var r := Settle(st, i);
    assert r.tasks[i].status != COMPLETED;
    assert NewlyCompleted(t0, r.tasks) == NewlyCompleted(t0, st.tasks);
  }

  /** Completing a task adds exactly that task to those completed since the start. */
  lemma CompleteWf(t0: seq<Task>, st: CtsState, i: int)
    requires Wf(t0, st) && 0 <= i < |st.tasks|
    ensures Wf(t0, Complete(st, i))
  {
    var r := Complete(st, i);
    if r != st {
      NewlyCompletedGrows(t0, st.tasks, r.tasks, i);
    }
  }

  /** Turning one task that was not COMPLETED into COMPLETED adds it, and only it, to those completed since the start. */
  lemma NewlyCompletedGrows(t0: seq<Task>, a: seq<Task>, b: seq<Task>, i: int)
    requires |a| == |b| == |t0| && 0 <= i < |a|
    requires a[i].status != COMPLETED && b[i].status == COMPLETED
    requires forall k :: 0 <= k < |a| && t0[k].status == COMPLETED ==> a[k].status == COMPLETED
    requires forall k :: 0 <= k < |a| && k != i ==> b[k].status == a[k].status
    ensures i !in NewlyCompleted(t0, a)
    ensures NewlyCompleted(t0, b) == NewlyCompleted(t0, a) + {i}
    ensures |NewlyCompleted(t0, b)| == |NewlyCompleted(t0, a)| + 1
  {
    assert NewlyCompleted(t0, b) == NewlyCompleted(t0, a) + {i};
  }

  lemma TaskStepWf(p: Problem, t0: seq<Task>, st: CtsState, i: int)
    requires Wf(t0, st) && Ready(p, st) && 0 <= i < |st.tasks|
    ensures Wf(t0, TaskStep(p, st, i))
  {
    if st.tasks[i].status == ALLOCABLE {
      ImproveWf(p, t0, st, i, 0);
      SettleWf(t0, Improve(p, st, i, 0), i);
      CompleteWf(t0, Settle(Improve(p, st, i, 0), i), i);
    } else {
      CompleteWf(t0, st, i);
    }
  }

  lemma TasksFromWf(p: Problem, t0: seq<Task>, st: CtsState, i: nat)
    requires Wf(t0, st) && Ready(p, st) && i <= |st.tasks|
    ensures Wf(t0, TasksFrom(p, st, i))
  {
    TasksFromInv(p, t0, st, i);
  }

  lemma {:induction false} TasksFromInv(p: Problem, t0: seq<Task>, st: CtsState, i: nat)
    requires Inv(t0, st) && Ready(p, st) && i <= |st.tasks|
    ensures Inv(t0, TasksFrom(p, st, i))
    decreases |st.tasks| - i, 1
  {
    if i < |st.tasks| {
      TasksFromInvStep(p, t0, st, i);
    } else {
      TasksFromInvEnd(p, t0, st, i);
    }
  }

  lemma TasksFromInvStep(p: Problem, t0: seq<Task>, st: CtsState, i: nat)
    requires Inv(t0, st) && Ready(p, st) && i < |st.tasks|
    ensures Inv(t0, TasksFrom(p, st, i))
    decreases |st.tasks| - i, 0
  {
    var next := TasksFromStep(p, t0, st, i);
    TasksFromInv(p, t0, next, i + 1);
  }

  lemma TasksFromInvEnd(p: Problem, t0: seq<Task>, st: CtsState, i: nat)
    requires Inv(t0, st) && Ready(p, st) && i == |st.tasks|
    ensures Inv(t0, TasksFrom(p, st, i))
  {
  }

  /** One task of the loop: the invariant holds after it, and the rest of the loop continues from it. */
  lemma TasksFromStep(p: Problem, t0: seq<Task>, st: CtsState, i: nat) returns (next: CtsState)
    requires Inv(t0, st) && Ready(p, st) && i < |st.tasks|
    ensures Inv(t0, next) && Ready(p, next) && |next.tasks| == |st.tasks|
    ensures TasksFrom(p, st, i) == TasksFrom(p, next, i + 1)
  {
    next := TaskStep(p, st, i);
    TaskStepWf(p, t0, st, i);
    ReadyKept(p, st, next);
  }

  lemma TickWf(p: Problem, order: Option<map<int, int>>, t0: seq<Task>, st: CtsState)
    requires Wf(t0, st) && Ready(p, st)
    ensures Wf(t0, Tick(p, order, st))
  {
    AgentsFromWf(p, order, t0, st, 0);
    var st' := AgentsFrom(p, order, st, 0);
    ReadyKept(p, st, st');
    TasksFromWf(p, t0, st', 0);
  }

  /** Every state of `solve` keeps the invariant. */
  lemma {:induction false} RunWf(p: Problem, order: Option<map<int, int>>, t0: seq<Task>, st: CtsState)
    requires Wf(t0, st) && Ready(p, st)
    ensures Wf(t0, Run(p, order, st))
    decreases p.maximumProblemCompletionTime - st.currentTime, 1
  {
    var s := Tick(p, order, st);
    ReadyKept(p, st, s);
    if Busy(s.agents) && s.completedCount < |s.tasks| && s.currentTime + 1 <= p.maximumProblemCompletionTime {
      RunWfOn(p, order, t0, st);
    } else {
      RunWfHere(p, order, t0, st);
    }
  }

  lemma RunWfOn(p: Problem, order: Option<map<int, int>>, t0: seq<Task>, st: CtsState)
    requires Wf(t0, st) && Ready(p, st)
    requires var s := Tick(p, order, st);
      Busy(s.agents) && s.completedCount < |s.tasks| && s.currentTime + 1 <= p.maximumProblemCompletionTime
    ensures Wf(t0, Run(p, order, st))
    decreases p.maximumProblemCompletionTime - st.currentTime, 0
  {
    var next := RunNext(p, order, t0, st);
    RunWf(p, order, t0, next);
  }

  /** A tick that goes on: the invariant holds at the next tick, and the rest of the loop continues from it. */
  lemma RunNext(p: Problem, order: Option<map<int, int>>, t0: seq<Task>, st: CtsState) returns (next: CtsState)
    requires Wf(t0, st) && Ready(p, st)
    requires var s := Tick(p, order, st);
      Busy(s.agents) && s.completedCount < |s.tasks| && s.currentTime + 1 <= p.maximumProblemCompletionTime
    ensures Wf(t0, next) && Ready(p, next) && next.currentTime == st.currentTime + 1
    ensures Run(p, order, st) == Run(p, order, next)
  {
    next := RunUnfold(p, order, st);
    TickWf(p, order, t0, st);
    ClockWf(t0, Tick(p, order, st));
  }

  lemma RunUnfold(p: Problem, order: Option<map<int, int>>, st: CtsState) returns (next: CtsState)
    requires Ready(p, st)
    requires var s := Tick(p, order, st);
      Busy(s.agents) && s.completedCount < |s.tasks| && s.currentTime + 1 <= p.maximumProblemCompletionTime
    ensures next == Tick(p, order, st).(currentTime := Tick(p, order, st).currentTime + 1)
    ensures Ready(p, next) && next.currentTime == st.currentTime + 1
    ensures Run(p, order, st) == Run(p, order, next)
  {
    var s := Tick(p, order, st);
    ReadyKept(p, st, s);
    next := s.(currentTime := s.currentTime + 1);
  }

  lemma RunWfHere(p: Problem, order: Option<map<int, int>>, t0: seq<Task>, st: CtsState)
    requires Wf(t0, st) && Ready(p, st)
    requires var s := Tick(p, order, st);
      !(Busy(s.agents) && s.completedCount < |s.tasks| && s.currentTime + 1 <= p.maximumProblemCompletionTime)
    ensures Wf(t0, Run(p, order, st))
  {
    TickWf(p, order, t0, st);
    ClockWf(t0, Tick(p, order, st));
  }

  /** Advancing the clock keeps the invariant: completion times already reached stay reached. */
  lemma ClockWf(t0: seq<Task>, st: CtsState)
    requires Wf(t0, st)
    ensures Wf(t0, st.(currentTime := st.currentTime + 1))
  {
  }

  /* ---------- what solve achieves ---------- */

  /** The counter never exceeds the number of tasks. */
  lemma CountBounded(t0: seq<Task>, st: CtsState)
    requires Wf(t0, st)
    ensures 0 <= st.completedCount <= |st.tasks|
  {
    assert NewlyCompleted(t0, st.tasks) <= Below(|st.tasks|);
    SubsetCard(NewlyCompleted(t0, st.tasks), Below(|st.tasks|));
  }

  /**
   * The loop stops only when no agent is busy, every task has been counted,
   * or the clock has passed the horizon; the clock never goes back.
   */
  lemma {:induction false} RunStops(p: Problem, order: Option<map<int, int>>, st: CtsState)
    requires Ready(p, st)
    ensures var r := Run(p, order, st);
      && r.currentTime >= st.currentTime
      && (!Busy(r.agents) || r.completedCount >= |r.tasks| || r.currentTime > p.maximumProblemCompletionTime)
    decreases p.maximumProblemCompletionTime - st.currentTime, 1
  {
    var s := Tick(p, order, st);
    ReadyKept(p, st, s);
    if Busy(s.agents) && s.completedCount < |s.tasks| && s.currentTime + 1 <= p.maximumProblemCompletionTime {
      RunStopsOn(p, order, st);
    } else {
      RunStopsHere(p, order, st);
    }
  }

  lemma RunStopsOn(p: Problem, order: Option<map<int, int>>, st: CtsState)
    requires Ready(p, st)
    requires var s := Tick(p, order, st);
      Busy(s.agents) && s.completedCount < |s.tasks| && s.currentTime + 1 <= p.maximumProblemCompletionTime
    ensures var r := Run(p, order, st);
      && r.currentTime >= st.currentTime
      && (!Busy(r.agents) || r.completedCount >= |r.tasks| || r.currentTime > p.maximumProblemCompletionTime)
    decreases p.maximumProblemCompletionTime - st.currentTime, 0
  {
    var s := Tick(p, order, st);
    ReadyKept(p, st, s);
    RunStops(p, order, s.(currentTime := s.currentTime + 1));
  }

  lemma RunStopsHere(p: Problem, order: Option<map<int, int>>, st: CtsState)
    requires Ready(p, st)
    requires var s := Tick(p, order, st);
      !(Busy(s.agents) && s.completedCount < |s.tasks| && s.currentTime + 1 <= p.maximumProblemCompletionTime)
    ensures var r := Run(p, order, st);
      && r.currentTime >= st.currentTime
      && (!Busy(r.agents) || r.completedCount >= |r.tasks| || r.currentTime > p.maximumProblemCompletionTime)
  {
  }

  /**
   * `solve` from freshly reset tasks: the final state keeps the invariant
   * (so every held solution was built for its task, completed tasks stay
   * completed and are counted once), the counter is at most the number of
   * tasks, and the loop ended for one of its three reasons.
   */
  lemma SolveOutcome(p: Problem, order: Option<map<int, int>>, tasks: seq<Task>, agents: seq<Agent>, currentTime: int)
    requires Bnt.AllReady(p, tasks) && MapsCover(tasks)
    ensures var r := Run(p, order, Start(tasks, agents, currentTime));
      && Wf(tasks, r)
      && r.currentTime >= currentTime
      && 0 <= r.completedCount <= |tasks|
      && (!Busy(r.agents) || r.completedCount == |tasks| || r.currentTime > p.maximumProblemCompletionTime)
  {
    var st := Start(tasks, agents, currentTime);
    assert NewlyCompleted(tasks, tasks) == {};
    RunWf(p, order, tasks, st);
    RunStops(p, order, st);
    CountBounded(tasks, Run(p, order, st));
  }

  /** A slot is unchanged, or now holds a solution with a strictly higher stored score (any solution, if it held none). */
  predicate NoWorse(before: Option<Solution>, after: Option<Solution>) {
    after == before || (after.Some? && (before.None? || after.value.score > before.value.score))
  }

  lemma ImproveAtNoWorse(p: Problem, st: CtsState, i: int, k: nat)
    requires Ready(p, st) && 0 <= i < |st.tasks| && k < |st.tasks[i].demand.possibleLocations|
    ensures var r := ImproveAt(p, st, i, k);
      && NoWorse(st.singletons[i], r.singletons[i])
      && forall j :: 0 <= j < |st.singletons| && j != i ==> r.singletons[j] == st.singletons[j]
  {
  }

  /**
   * Over task i's locations the solution of task i is only ever replaced by
   * one with a strictly higher stored score, and no other task's solution
   * changes.
   */
  lemma {:induction false} ImproveNoWorse(p: Problem, st: CtsState, i: int, k: nat)
    requires Ready(p, st) && 0 <= i < |st.tasks| && k <= |st.tasks[i].demand.possibleLocations|
    ensures var r := Improve(p, st, i, k);
      && NoWorse(st.singletons[i], r.singletons[i])
      && forall j :: 0 <= j < |st.singletons| && j != i ==> r.singletons[j] == st.singletons[j]
    decreases |st.tasks[i].demand.possibleLocations| - k, 1
  {
    if k < |st.tasks[i].demand.possibleLocations| {
      ImproveNoWorseStep(p, st, i, k);
    }
  }

  lemma ImproveNoWorseStep(p: Problem, st: CtsState, i: int, k: nat)
    requires Ready(p, st) && 0 <= i < |st.tasks| && k < |st.tasks[i].demand.possibleLocations|
    ensures var r := Improve(p, st, i, k);
      && NoWorse(st.singletons[i], r.singletons[i])
      && forall j :: 0 <= j < |st.singletons| && j != i ==> r.singletons[j] == st.singletons[j]
    decreases |st.tasks[i].demand.possibleLocations| - k, 0
  {
    var st' := ImproveAt(p, st, i, k);
    ImproveAtNoWorse(p, st, i, k);
    ReadyKept(p, st, st');
    ImproveNoWorse(p, st', i, k + 1);
  }

  /**
   * The task loop's body on an ALLOCABLE task: its allocable map is reset;
   * without a solution it is UNCOMPLETED again; with one it is COMPLETED
   * (and counted) exactly when the solution's completion time has been
   * reached, and ALLOCATED otherwise; no other task changes.
   */
  lemma TaskStepSettles(p: Problem, st: CtsState, i: int)
    requires Ready(p, st) && 0 <= i < |st.tasks| && st.tasks[i].status == ALLOCABLE
    ensures var r := TaskStep(p, st, i);
      var s := Improve(p, st, i, 0).singletons[i];
      var v := st.tasks[i];
      && r.singletons == Improve(p, st, i, 0).singletons
      && (forall l :: l in r.tasks[i].allocableMap <==> l in v.demand.possibleLocations)
      && (forall l :: l in r.tasks[i].allocableMap ==> r.tasks[i].allocableMap[l] == {})
      && (s.None? ==> r.tasks[i].status == UNCOMPLETED && r.completedCount == st.completedCount)
      && (s.Some? ==>
            var done := v.id in s.value.taskCompletionTime && s.value.taskCompletionTime[v.id] <= st.currentTime;
            && (done ==> r.tasks[i].status == COMPLETED && r.completedCount == st.completedCount + 1)
            && (!done ==> r.tasks[i].status == ALLOCATED && r.completedCount == st.completedCount))
      && forall j :: 0 <= j < |st.tasks| && j != i ==> r.tasks[j] == st.tasks[j]
  {
  }

  /**
   * Completing task i releases every agent of its solution: each becomes
   * IDLE with no target task and no target location; the other agents are
   * untouched.
   */
  lemma CompleteReleases(st: CtsState, i: int)
    requires Shaped(st) && 0 <= i < |st.tasks|
    requires Complete(st, i) != st
    ensures var r := Complete(st, i);
      var ids := st.singletons[i].value.agents;
      && r.tasks[i].status == COMPLETED && r.completedCount == st.completedCount + 1
      && (forall k :: 0 <= k < |r.agents| && r.agents[k].id in ids ==>
            r.agents[k].status == IDLE && r.agents[k].target.None? && r.agents[k].targetLocation.None?)
      && (forall k :: 0 <= k < |r.agents| && r.agents[k].id !in ids ==> r.agents[k] == st.agents[k])
  {
  }

  /**
   * Settling task i with a solution dispatches its agents: those that have
   * arrived by now work at their target location, the others travel; the
   * other agents are untouched.
   */
  lemma SettleDispatches(st: CtsState, i: int)
    requires Shaped(st) && 0 <= i < |st.tasks| && st.singletons[i].Some?
    ensures var r := Settle(st, i);
      var ids := st.singletons[i].value.agents;
      && r.tasks[i].status == ALLOCATED
      && (forall k :: 0 <= k < |r.agents| && st.agents[k].id in ids && st.agents[k].arrivalTime <= st.currentTime ==>
            r.agents[k].status == WORKING && (st.agents[k].targetLocation.Some? ==> r.agents[k].location == st.agents[k].targetLocation.value))
      && (forall k :: 0 <= k < |r.agents| && st.agents[k].id in ids && st.agents[k].arrivalTime > st.currentTime ==>
            r.agents[k].status == TRAVELING && r.agents[k].location == st.agents[k].location)
      && (forall k :: 0 <= k < |r.agents| && st.agents[k].id !in ids ==> r.agents[k] == st.agents[k])
  {
  }

  /* ---------- merge ---------- */

  /** The tasks of the solutions present. */
  function MergedTasks(ss: seq<Option<Solution>>): set<int> {
    if |ss| == 0 then {}
    else MergedTasks(ss[..|ss| - 1]) + (if ss[|ss| - 1].Some? then ss[|ss| - 1].value.tasks else {})
  }

  /** The allocations of the solutions present, solution by solution. */
  function MergedAllocations(ss: seq<Option<Solution>>): seq<CoalitionAllocation> {
    if |ss| == 0 then []
    else MergedAllocations(ss[..|ss| - 1]) + (if ss[|ss| - 1].Some? then ss[|ss| - 1].value.coalitionAllocations else [])
  }

  /** The sum of the stored scores of the solutions present. */
  function MergedScore(ss: seq<Option<Solution>>): real {
    if |ss| == 0 then 0.0
    else MergedScore(ss[..|ss| - 1]) + (if ss[|ss| - 1].Some? then ss[|ss| - 1].value.score else 0.0)
  }

  /** merge: the union of the tasks, all the allocations, and the sum of the stored scores. */
  function MergeOf(ss: seq<Option<Solution>>): (r: Solution)
    ensures r.tasks == MergedTasks(ss) && r.coalitionAllocations == MergedAllocations(ss)
    ensures r.agents == AgentsOf(MergedAllocations(ss)) && r.score == MergedScore(ss) && r.taskCompletionTime == map[]
  {
    Build(MergedTasks(ss), MergedAllocations(ss)).(score := MergedScore(ss))
  }

  /** The merged tasks and allocations are exactly those of the solutions present. */
  lemma {:induction false} MergeMembers(ss: seq<Option<Solution>>, x: int, ca: CoalitionAllocation)
    ensures x in MergedTasks(ss) <==> exists k :: 0 <= k < |ss| && ss[k].Some? && x in ss[k].value.tasks
    ensures ca in MergedAllocations(ss) <==> exists k :: 0 <= k < |ss| && ss[k].Some? && ca in ss[k].value.coalitionAllocations
  {
    if |ss| > 0 {
      var n := |ss| - 1;
      MergeMembers(ss[..n], x, ca);
      assert forall k :: 0 <= k < n ==> ss[..n][k] == ss[k];
    }
  }

  /** When every present solution stores the recomputed score of its allocations, so does the merge. */
  lemma {:induction false} MergeScore(ss: seq<Option<Solution>>)
    requires forall k :: 0 <= k < |ss| && ss[k].Some? ==>
      AllScorable(ss[k].value.coalitionAllocations) && ss[k].value.score == ScoreOf(ss[k].value.coalitionAllocations)
    ensures AllScorable(MergedAllocations(ss)) && MergedScore(ss) == ScoreOf(MergedAllocations(ss))
  {
    if |ss| > 0 {
      var n := |ss| - 1;
      assert forall k :: 0 <= k < n ==> ss[..n][k] == ss[k];
      MergeScore(ss[..n]);
      if ss[n].Some? {
        ScoreOfAppend(MergedAllocations(ss[..n]), ss[n].value.coalitionAllocations);
      } else {
        assert MergedAllocations(ss) == MergedAllocations(ss[..n]);
      }
    }
  }

  /**
   * The merge of what `solve` holds: its tasks are the ids of the tasks with
   * a solution, its score is the score its allocations add up to, and every
   * allocation is for one of those tasks and, for a consistent window, valid
   * and within the task's hard deadline.
   */
  lemma SolvedMerge(t0: seq<Task>, st: CtsState)
    requires Wf(t0, st)
    ensures var m := MergeOf(st.singletons);
      && (forall x :: x in m.tasks <==> exists k :: 0 <= k < |t0| && st.singletons[k].Some? && t0[k].id == x)
      && AllScorable(m.coalitionAllocations) && m.score == ScoreOf(m.coalitionAllocations)
      && (forall ca :: ca in m.coalitionAllocations ==>
            && ca.task.id in m.tasks
            && (TimeWindows.Valid(ca.task.demand.timeWindow) ==>
                  Allocations.Valid(ca) && ca.endTime <= ca.task.demand.timeWindow.hardLatestTime))
  {
    MergeScore(st.singletons);
    MergedTasksAre(t0, st.singletons);
    forall ca | ca in MergedAllocations(st.singletons)
      ensures ca.task.id in MergedTasks(st.singletons)
      ensures TimeWindows.Valid(ca.task.demand.timeWindow) ==>
        Allocations.Valid(ca) && ca.endTime <= ca.task.demand.timeWindow.hardLatestTime
    {
      MergedAllocationHeld(t0, st.singletons, ca);
    }
  }

  lemma MergedTasksAre(t0: seq<Task>, ss: seq<Option<Solution>>)
    requires AllHold(t0, ss)
    ensures forall x :: x in MergedTasks(ss) <==> exists k :: 0 <= k < |t0| && ss[k].Some? && t0[k].id == x
  {
    forall x
      ensures x in MergedTasks(ss) <==> exists k :: 0 <= k < |t0| && ss[k].Some? && t0[k].id == x
    {
      MergedTaskIff(t0, ss, x);
    }
  }

  lemma MergedTaskIff(t0: seq<Task>, ss: seq<Option<Solution>>, x: int)
    requires AllHold(t0, ss)
    ensures x in MergedTasks(ss) <==> exists k :: 0 <= k < |t0| && ss[k].Some? && t0[k].id == x
  {
    var ca :| true;
    MergeMembers(ss, x, ca);
    if x in MergedTasks(ss) {
      var k :| 0 <= k < |ss| && ss[k].Some? && x in ss[k].value.tasks;
      assert Holds(t0[k], ss[k].value);
      assert t0[k].id == x;
    }
    if exists k :: 0 <= k < |t0| && ss[k].Some? && t0[k].id == x {
      var k :| 0 <= k < |t0| && ss[k].Some? && t0[k].id == x;
      assert Holds(t0[k], ss[k].value);
      assert x in ss[k].value.tasks;
    }
  }

  lemma MergedAllocationHeld(t0: seq<Task>, ss: seq<Option<Solution>>, ca: CoalitionAllocation)
    requires AllHold(t0, ss) && ca in MergedAllocations(ss)
    ensures ca.task.id in MergedTasks(ss)
    ensures TimeWindows.Valid(ca.task.demand.timeWindow) ==>
      Allocations.Valid(ca) && ca.endTime <= ca.task.demand.timeWindow.hardLatestTime
  {
    MergeMembers(ss, ca.task.id, ca);
    var k :| 0 <= k < |ss| && ss[k].Some? && ca in ss[k].value.coalitionAllocations;
    var q :| 0 <= q < |ss[k].value.coalitionAllocations| && ss[k].value.coalitionAllocations[q] == ca;
    assert Holds(t0[k], ss[k].value);
    assert ca.task.id == t0[k].id;
    assert OneTask(t0[k], ss[k].value);
    assert ca.task.id in ss[k].value.tasks;
  }

  /** merge's loop over the solution slots. */
  method Merge(ss: seq<Option<Solution>>) returns (s: Solution)
    ensures s == MergeOf(ss)
  {
    var tasks: set<int> := {};
    var l: seq<CoalitionAllocation> := [];
    var score := 0.0;
    for k := 0 to |ss|
      invariant tasks == MergedTasks(ss[..k]) && l == MergedAllocations(ss[..k]) && score == MergedScore(ss[..k])
    {
      assert ss[..k + 1][..k] == ss[..k];
      if ss[k].Some? {
        tasks := tasks + ss[k].value.tasks;
        l := l + ss[k].value.coalitionAllocations;
        var sc, _ := GetScore(ss[k].value, false);
        score := score + sc;
      }
    }
    assert ss[..|ss|] == ss;
    s := NewWithScore(tasks, l, score);
  }

  /* ---------- solve, step by step ---------- */

  /** someAgentsAreBusy: the loop that looks for an agent that is not IDLE. */
  method SomeAgentsAreBusy(agents: seq<Agent>) returns (b: bool)
    ensures b == Busy(agents)
  {
    for k := 0 to |agents|
      invariant forall j :: 0 <= j < k ==> agents[j].status == IDLE
    {
      if agents[k].status != IDLE {
        return true;
      }
    }
    return false;
  }

  /** The loop over the agents of task i's solution that keeps those targeting the location. */
  method CollectPrior(st: CtsState, i: int, location: Location) returns (ids: set<int>)
    requires Shaped(st) && 0 <= i < |st.tasks|
    ensures ids == Prior(st, i, location)
  {
    ids := {};
    if st.singletons[i].None? {
      return;
    }
    var members := st.singletons[i].value.agents;
    for k := 0 to |st.agents|
      invariant ids == set j | 0 <= j < k && st.agents[j].id in members && st.agents[j].targetLocation == Some(location)
                      :: st.agents[j].id
    {
      if st.agents[k].id in members && st.agents[k].targetLocation == Some(location) {
        ids := ids + {st.agents[k].id};
      }
    }
  }

  /** The loop that dispatches the agents of a solution. */
  method DispatchAgents(agents: seq<Agent>, ids: set<int>, now: int) returns (r: seq<Agent>)
    ensures r == Dispatch(agents, ids, now)
  {
    r := agents;
    for k := 0 to |agents|
      invariant |r| == |agents|
      invariant forall j :: 0 <= j < k ==> r[j] == Dispatch(agents, ids, now)[j]
      invariant forall j :: k <= j < |agents| ==> r[j] == agents[j]
    {
      var a := agents[k];
      if a.id in ids {
        if a.arrivalTime <= now {
          r := r[k := a.(status := WORKING, location := LocationOr(a.targetLocation, a.location))];
        } else {
          r := r[k := a.(status := TRAVELING)];
        }
      }
    }
  }

  /** The loop that releases the agents of a completed solution. */
  method ReleaseAgents(agents: seq<Agent>, ids: set<int>) returns (r: seq<Agent>)
    ensures r == Release(agents, ids)
  {
    r := agents;
    for k := 0 to |agents|
      invariant |r| == |agents|
      invariant forall j :: 0 <= j < k ==> r[j] == Release(agents, ids)[j]
      invariant forall j :: k <= j < |agents| ==> r[j] == agents[j]
    {
      if agents[k].id in ids {
        r := r[k := agents[k].(status := IDLE, target := None, targetLocation := None)];
      }
    }
  }

  /** One location of task i: the candidate and the comparison with the current solution. */
  method ImproveLocation(p: Problem, st: CtsState, i: int, k: nat) returns (next: CtsState)
    requires Ready(p, st) && 0 <= i < |st.tasks| && k < |st.tasks[i].demand.possibleLocations|
    ensures next == ImproveAt(p, st, i, k)
  {
    var v := st.tasks[i];
    var location := v.demand.possibleLocations[k];
    var allocable := if location in v.allocableMap then v.allocableMap[location] else {};
    if |allocable| == 0 {
      return st;
    }
    var prior := CollectPrior(st, i, location);
    var sol, updated := GetSingletonSolution(p, st.agents, v, location, allocable + prior);
    if sol.Some? && (st.singletons[i].None? || sol.value.score > st.singletons[i].value.score) {
      next := st.(agents := updated, singletons := st.singletons[i := sol]);
    } else {
      next := st.(agents := updated);
    }
  }

  lemma ImproveUnfold(p: Problem, st: CtsState, i: int, k: nat) returns (next: CtsState)
    requires Ready(p, st) && 0 <= i < |st.tasks| && k < |st.tasks[i].demand.possibleLocations|
    ensures next == ImproveAt(p, st, i, k) && Ready(p, next) && next.tasks == st.tasks
    ensures Improve(p, st, i, k) == Improve(p, next, i, k + 1)
  {
    next := ImproveAt(p, st, i, k);
    ReadyKept(p, st, next);
  }

  /** The loop over the locations of an ALLOCABLE task i. */
  method ImproveTask(p: Problem, st: CtsState, i: int) returns (next: CtsState)
    requires Ready(p, st) && 0 <= i < |st.tasks|
    ensures next == Improve(p, st, i, 0)
  {
    next := st;
    var locations := st.tasks[i].demand.possibleLocations;
    for k := 0 to |locations|
      invariant Ready(p, next) && next.tasks == st.tasks
      invariant Improve(p, next, i, k) == Improve(p, st, i, 0)
    {
      ghost var before := next;
      next := ImproveLocation(p, next, i, k);
      ghost var after := ImproveUnfold(p, before, i, k);
    }
  }

  /** The task loop's body for task i. */
  method TaskStepMethod(p: Problem, st: CtsState, i: int) returns (next: CtsState)
    requires Ready(p, st) && 0 <= i < |st.tasks|
    ensures next == TaskStep(p, st, i)
  {
    next := st;
    if st.tasks[i].status == ALLOCABLE {
      next := ImproveTask(p, st, i);
      var v := ResetAllocableMap(next.tasks[i]);
      if next.singletons[i].Some? {
        var dispatched := DispatchAgents(next.agents, next.singletons[i].value.agents, next.currentTime);
        next := next.(tasks := next.tasks[i := v.(status := ALLOCATED)], agents := dispatched);
      } else {
        next := next.(tasks := next.tasks[i := v.(status := UNCOMPLETED)]);
      }
    }
    var v := next.tasks[i];
    var s := next.singletons[i];
    if v.status == ALLOCATED && s.Some? && v.id in s.value.taskCompletionTime
      && s.value.taskCompletionTime[v.id] <= next.currentTime {
      var released := ReleaseAgents(next.agents, s.value.agents);
      next := next.(agents := released, tasks := next.tasks[i := v.(status := COMPLETED)],
                    completedCount := next.completedCount + 1);
    }
  }

  /** The agent loop's body for agent i. */
  method AgentStepMethod(p: Problem, order: Option<map<int, int>>, st: CtsState, i: int) returns (next: CtsState)
    requires Shaped(st) && 0 <= i < |st.agents|
    ensures next == AgentStep(p, order, st, i)
  {
    var a := st.agents[i];
    next := st;
    if a.status == IDLE {
      next := SetPotentialAllocationsTo(p, order, st, i);
    } else if a.target.Some? && a.status == TRAVELING {
      var k := FindTask(st.tasks, a.target.value);
      if k >= 0 && st.tasks[k].status == COMPLETED {
        next := st.(agents := st.agents[i := a.(status := IDLE, target := None)]);
      } else if a.arrivalTime < st.currentTime {
        next := st.(agents := st.agents[i := a.(status := WORKING, location := LocationOr(a.targetLocation, a.location))]);
      }
    }
  }

  lemma AgentsFromUnfold(p: Problem, order: Option<map<int, int>>, st: CtsState, i: nat) returns (next: CtsState)
    requires Shaped(st) && i < |st.agents|
    ensures next == AgentStep(p, order, st, i) && Shaped(next) && |next.agents| == |st.agents|
    ensures AgentsFrom(p, order, st, i) == AgentsFrom(p, order, next, i + 1)
  {
    next := AgentStep(p, order, st, i);
  }

  lemma TasksFromUnfold(p: Problem, st: CtsState, i: nat) returns (next: CtsState)
    requires Ready(p, st) && i < |st.tasks|
    ensures next == TaskStep(p, st, i) && Ready(p, next) && |next.tasks| == |st.tasks|
    ensures TasksFrom(p, st, i) == TasksFrom(p, next, i + 1)
  {
    next := TaskStep(p, st, i);
    ReadyKept(p, st, next);
  }

  /** One iteration of the do-while body: the agent loop, then the task loop. */
  method TickMethod(p: Problem, order: Option<map<int, int>>, st: CtsState) returns (next: CtsState)
    requires Ready(p, st)
    ensures next == Tick(p, order, st)
  {
    var mid := AgentLoop(p, order, st);
    ReadyKept(p, st, mid);
    next := TaskLoop(p, mid);
  }

  /** The loop over the agents of a tick. */
  method AgentLoop(p: Problem, order: Option<map<int, int>>, st: CtsState) returns (next: CtsState)
    requires Shaped(st)
    ensures next == AgentsFrom(p, order, st, 0)
  {
    next := st;
    for i := 0 to |st.agents|
      invariant Shaped(next) && |next.agents| == |st.agents|
      invariant AgentsFrom(p, order, next, i) == AgentsFrom(p, order, st, 0)
    {
      next := AgentTurn(p, order, next, i);
    }
  }

  /** One turn of the agent loop, stated by where the rest of the loop goes from. */
  method AgentTurn(p: Problem, order: Option<map<int, int>>, st: CtsState, i: nat) returns (next: CtsState)
    requires Shaped(st) && i < |st.agents|
    ensures Shaped(next) && |next.agents| == |st.agents|
    ensures AgentsFrom(p, order, st, i) == AgentsFrom(p, order, next, i + 1)
  {
    next := AgentStepMethod(p, order, st, i);
    ghost var after := AgentsFromUnfold(p, order, st, i);
  }

  /** The loop over the tasks of a tick. */
  method TaskLoop(p: Problem, st: CtsState) returns (next: CtsState)
    requires Ready(p, st)
    ensures next == TasksFrom(p, st, 0)
  {
    next := st;
    for i := 0 to |st.tasks|
      invariant Ready(p, next) && |next.tasks| == |st.tasks|
      invariant TasksFrom(p, next, i) == TasksFrom(p, st, 0)
    {
      next := TaskTurn(p, next, i);
    }
  }

  /** One turn of the task loop, stated by where the rest of the loop goes from. */
  method TaskTurn(p: Problem, st: CtsState, i: nat) returns (next: CtsState)
    requires Ready(p, st) && i < |st.tasks|
    ensures Ready(p, next) && |next.tasks| == |st.tasks|
    ensures TasksFrom(p, st, i) == TasksFrom(p, next, i + 1)
  {
    next := TaskStepMethod(p, st, i);
    ghost var after := TasksFromUnfold(p, st, i);
  }

  /**
   * One turn of the `do ... while` loop: a tick, then either the loop goes
   * on from the tick's state one time unit later, or it stops with the
   * state the whole run leaves.
   */
  method RunOnce(p: Problem, order: Option<map<int, int>>, cur: CtsState) returns (done: bool, next: CtsState)
    requires Ready(p, cur)
    ensures done ==> next == Run(p, order, cur)
    ensures !done ==> && Ready(p, next) && next.currentTime == cur.currentTime + 1
                      && next.currentTime <= p.maximumProblemCompletionTime
                      && Run(p, order, next) == Run(p, order, cur)
  {
    var s := TickMethod(p, order, cur);
    var busy := SomeAgentsAreBusy(s.agents);
    if busy && s.completedCount < |s.tasks| && s.currentTime + 1 <= p.maximumProblemCompletionTime {
      ghost var n := RunUnfold(p, order, cur);
      done, next := false, s.(currentTime := s.currentTime + 1);
    } else {
      RunLast(p, order, cur);
      done := true;
      next := if busy && s.completedCount < |s.tasks| then s.(currentTime := s.currentTime + 1) else s;
    }
  }

  /** The loop of `solve`, from a state on. */
  method RunLoop(p: Problem, order: Option<map<int, int>>, st: CtsState) returns (r: CtsState)
    requires Ready(p, st)
    ensures r == Run(p, order, st)
  {
    var cur := st;
    var done := false;
    while !done
      invariant !done ==> Ready(p, cur) && Run(p, order, cur) == Run(p, order, st)
      invariant done ==> cur == Run(p, order, st)
      decreases !done, p.maximumProblemCompletionTime - cur.currentTime
    {
      done, cur := RunOnce(p, order, cur);
    }
    r := cur;
  }

  lemma RunLast(p: Problem, order: Option<map<int, int>>, st: CtsState)
    requires Ready(p, st)
    requires var s := Tick(p, order, st);
      !(Busy(s.agents) && s.completedCount < |s.tasks| && s.currentTime + 1 <= p.maximumProblemCompletionTime)
    ensures var s := Tick(p, order, st);
      Run(p, order, st) == (if Busy(s.agents) && s.completedCount < |s.tasks| then s.(currentTime := s.currentTime + 1) else s)
  {
  }

  /* ---------- the engine ---------- */

  /** Every task with a fresh allocable map. */
  function ResetAll(tasks: seq<Task>): (r: seq<Task>)
    ensures |r| == |tasks| && MapsCover(r) && SameTasks(tasks, r)
    ensures forall k :: 0 <= k < |r| ==> r[k].status == tasks[k].status
    ensures forall k, l :: 0 <= k < |r| && l in r[k].allocableMap ==>
      l in tasks[k].demand.possibleLocations && r[k].allocableMap[l] == {}
  {
    seq(|tasks|, k requires 0 <= k < |tasks| => Reset(tasks[k]))
  }

  /** The tasks in the given order when the order has one entry per task, and unchanged otherwise. */
  function Reordered(tasks: seq<Task>, taskOrder: seq<int>): (r: seq<Task>)
    requires |taskOrder| == |tasks| ==> forall i :: 0 <= i < |taskOrder| ==> 0 <= taskOrder[i] < |tasks|
    ensures |r| == |tasks|
    ensures |taskOrder| == |tasks| ==> forall i :: 0 <= i < |r| ==> r[i] == tasks[taskOrder[i]]
    ensures |taskOrder| != |tasks| ==> r == tasks
  {
    if |taskOrder| == |tasks| then seq(|tasks|, i requires 0 <= i < |tasks| => tasks[taskOrder[i]]) else tasks
  }

  /** A task order naming every position in 0..n-1 exactly once. */
  predicate IsPermutation(taskOrder: seq<int>, n: nat) {
    && |taskOrder| == n
    && (forall i :: 0 <= i < n ==> 0 <= taskOrder[i] < n)
    && (forall i, j :: 0 <= i < j < n ==> taskOrder[i] != taskOrder[j])
  }

  /** Reordering keeps every allocable map covering its task's locations. */
  lemma ReorderedCover(tasks: seq<Task>, taskOrder: seq<int>)
    requires |taskOrder| == |tasks| ==> forall i :: 0 <= i < |taskOrder| ==> 0 <= taskOrder[i] < |tasks|
    requires MapsCover(tasks)
    ensures MapsCover(Reordered(tasks, taskOrder))
  {
    var r := Reordered(tasks, taskOrder);
    forall k, l | 0 <= k < |r| && l in r[k].demand.possibleLocations
      ensures l in r[k].allocableMap
    {
      if |taskOrder| == |tasks| {
        assert r[k] == tasks[taskOrder[k]];
      }
    }
  }

  /** Under a task order that is a permutation, every task of the problem takes exactly one slot. */
  lemma ReorderedPermutes(tasks: seq<Task>, taskOrder: seq<int>, k: int)
    requires IsPermutation(taskOrder, |tasks|) && 0 <= k < |tasks|
    ensures exists i :: 0 <= i < |tasks| && taskOrder[i] == k && Reordered(tasks, taskOrder)[i] == tasks[k]
    ensures forall i, j :: 0 <= i < |tasks| && 0 <= j < |tasks| && taskOrder[i] == k && taskOrder[j] == k ==> i == j
  {
    PermutationHits(taskOrder, |tasks|, k);
    var i :| 0 <= i < |tasks| && taskOrder[i] == k;
    assert Reordered(tasks, taskOrder)[i] == tasks[k];
  }

  /** A permutation of 0..n-1 names every position. */
  lemma PermutationHits(taskOrder: seq<int>, n: nat, k: int)
    requires IsPermutation(taskOrder, n) && 0 <= k < n
    ensures k in taskOrder
  {
    DistinctImage(taskOrder);
    var image := set x | x in taskOrder;
    assert image <= Below(n);
    var rest := Below(n) - image;
    assert Below(n) == image + rest;
    assert |rest| == 0;
    assert k in image;
  }

  /** A sequence of distinct entries has as many distinct values as entries. */
  lemma {:induction false} DistinctImage(s: seq<int>)
    requires forall i, j :: 0 <= i < j < |s| ==> s[i] != s[j]
    ensures |set x | x in s| == |s|
  {
    if |s| > 0 {
      var n := |s| - 1;
      DistinctImage(s[..n]);
      assert (set x | x in s) == (set x | x in s[..n]) + {s[n]};
      assert s[n] !in (set x | x in s[..n]);
    }
  }

  /** The CTS engine: the solver's state plus the clock and the solution slots of the last `solve`. */
  class CtsSolver {
    const problem: Problem
    var tasks: seq<Task>
    var order: Option<map<int, int>>
    var agents: seq<Agent>
    var currentTime: int
    var singletonSolutions: Option<seq<Option<Solution>>>
    var solution: Option<Solution>

    /** The solver's tasks, each with an allocable map holding an empty set per possible location; the clock at 0. */
    constructor (problem: Problem)
      ensures this.problem == problem && agents == problem.agents && order == problem.order
      ensures tasks == ResetAll(problem.tasks)
      ensures currentTime == 0 && singletonSolutions.None? && solution.None?
    {
      this.problem := problem;
      agents := problem.agents;
      order := problem.order;
      currentTime := 0;
      singletonSolutions := None;
      solution := None;
      var reset := ResetTasks(problem.tasks);
      tasks := reset;
    }

    /** As the other constructor, then the tasks are taken in the given order when it has one entry per task. */
    constructor WithOrder(problem: Problem, taskOrder: seq<int>)
      requires |taskOrder| == |problem.tasks| ==> forall i :: 0 <= i < |taskOrder| ==> 0 <= taskOrder[i] < |problem.tasks|
      ensures this.problem == problem && agents == problem.agents && order == problem.order
      ensures tasks == Reordered(ResetAll(problem.tasks), taskOrder)
      ensures currentTime == 0 && singletonSolutions.None? && solution.None?
    {
      this.problem := problem;
      agents := problem.agents;
      order := problem.order;
      currentTime := 0;
      singletonSolutions := None;
      solution := None;
      var reset := ResetTasks(problem.tasks);
      if |taskOrder| == |reset| {
        var ordered: seq<Task> := [];
        for i := 0 to |reset|
          invariant |ordered| == i && forall j :: 0 <= j < i ==> ordered[j] == reset[taskOrder[j]]
        {
          ordered := ordered + [reset[taskOrder[i]]];
        }
        tasks := ordered;
      } else {
        tasks := reset;
      }
    }

    /** someAgentsAreBusy on the solver's agents. */
    method AgentsAreBusy() returns (b: bool)
      ensures b == Busy(agents)
    {
      b := SomeAgentsAreBusy(agents);
    }

    /**
     * The tick loop from fresh solution slots and a zero counter, starting
     * at the solver's clock; it leaves the tasks, agents, clock and slots of
     * the final state.
     */
    method Solve()
      requires Bnt.AllReady(problem, tasks)
      modifies this
      ensures var r := Run(problem, old(order), Start(old(tasks), old(agents), old(currentTime)));
        && tasks == r.tasks && agents == r.agents && currentTime == r.currentTime
        && singletonSolutions == Some(r.singletons)
      ensures order == old(order) && solution == old(solution)
    {
      var st := Start(tasks, agents, currentTime);
      var r := RunLoop(problem, order, st);
      tasks, agents, currentTime, singletonSolutions := r.tasks, r.agents, r.currentTime, Some(r.singletons);
    }

    /** The merge of the solution slots, computed on the first call and kept afterwards. */
    method GetSolution() returns (s: Solution)
      requires singletonSolutions.Some? || solution.Some?
      modifies this
      ensures old(solution).Some? ==> s == old(solution).value
      ensures old(solution).None? ==> s == MergeOf(old(singletonSolutions).value)
      ensures solution == Some(s)
      ensures tasks == old(tasks) && agents == old(agents) && order == old(order)
      ensures currentTime == old(currentTime) && singletonSolutions == old(singletonSolutions)
    {
      if solution.None? {
        var merged := Merge(singletonSolutions.value);
        solution := Some(merged);
      }
      s := solution.value;
    }

    /** The stored score of each task's solution, 0 for a task without one. */
    method GetSingletonSolutionScores() returns (f: array<real>)
      requires singletonSolutions.Some? && |singletonSolutions.value| >= |tasks|
      ensures fresh(f) && f.Length == |tasks|
      ensures forall i :: 0 <= i < |tasks| ==>
        f[i] == (if singletonSolutions.value[i].Some? then singletonSolutions.value[i].value.score else 0.0)
    {
      var ss := singletonSolutions.value;
      f := new real[|tasks|](_ => 0.0);
      for i := 0 to |tasks|
        invariant forall j :: 0 <= j < i ==> f[j] == (if ss[j].Some? then ss[j].value.score else 0.0)
        invariant forall j :: i <= j < f.Length ==> f[j] == 0.0
      {
        if ss[i].Some? {
          var score, _ := GetScore(ss[i].value, false);
          f[i] := score;
        }
      }
    }
  }

  /** The constructor's loop over the tasks. */
  method ResetTasks(tasks: seq<Task>) returns (r: seq<Task>)
    ensures r == ResetAll(tasks)
  {
    r := [];
    for k := 0 to |tasks|
      invariant |r| == k && forall j :: 0 <= j < k ==> r[j] == Reset(tasks[j])
    {
      var v := ResetAllocableMap(tasks[k]);
      r := r + [v];
    }
  }
}
