# MARSC scheduling core in Dafny

This project models the scheduling core of `marsc`. `marsc` is a solver for the
Multi-Agent task scheduling and Routing through Coalition formation problem
(MARSC).

A problem instance has:
- tasks, each with a workload, a profit, a set of possible locations and a time
  window (earliest start, soft deadline, hard deadline);
- an optional precedence map (the value precedes the key);
- agents with a speed;
- a coalition value function, which gives the work a coalition does per time
  unit at a location.

An engine assigns coalitions of agents to tasks over integral time. The result
is a solution: a set of coalition allocations and a score. Each unit of work is
worth the task's profit up to its hard deadline, and the profit decays after
that.

The model covers:
- the data model: time windows, demands, tasks, agents, coalition allocations,
  solutions and the problem;
- the solver base: the task comparator and the marginal score;
- the four engines:
  - BNT (bounded node traversal: greedy rounds that commit the best one-task
    solution);
  - EDF (earliest deadline first: one pass in comparator order);
  - CTS (cluster-based task scheduling: a tick-by-tick state machine);
  - ANT (exhaustive search over task schedules with Heap's algorithm, a
    precedence filter and stopping rules);
- the array utilities;
- the coalition-value variants of the problem family.

The model keeps the source's form:
- Values are datatypes, and the engines are classes whose fields the methods
  reassign.
- A loop of the source is a method with a `while` or `for` loop. It is proved
  against a function that states what the loop computes, and the properties
  are proved about that function.
- Java `float` arithmetic is modelled on `real`.
- Java `int` division, which truncates toward zero, is modelled explicitly
  (`Scores.JavaDiv`).
- The travel time and the coalition value function are functions that come
  with the problem. The random draws of the value-function constructors are
  tables or oracle values passed in.

Some behaviours of the code are easy to miss; the model follows the code:
- An empty but non-null precedence map makes ANT skip every schedule after
  the first, which is evaluated before any order check. The code treats a
  map as "no order" only when it is `null`. The problem stores an order only
  when it is non-empty and the solvers copy that one, so only a direct
  caller of `satisfiesOrder` can pass an empty map.
- On an overflow of the binomial count, the stored value −1 is decremented to
  −2 and the search stops.
- `maxPermutations` ≤ 0 disables the permutation budget. Only then does the
  convergence limit apply.
- ANT's counter of consecutive investigated schedules is reset by a skipped
  schedule.
- The `TreeSet`s built with a comparator drop an element that compares 0 to
  one already present. BNT and EDF therefore never see a task whose earliest
  and hard times tie with an earlier task's. BNT's growth routine never sees
  an agent whose arrival time ties with another's. ANT's schedule array is
  then padded with zeros.
- With a precedence order the task comparator is not transitive, so the
  order the task set iterates in depends on the shape of the red-black tree
  behind `TreeSet`. It is not a sorted order and not the order a walk
  through a sorted list would give. The model therefore builds the task set
  with `java.util.TreeMap`'s own insertion: the descent of `put` and the
  recolorings and rotations of `fixAfterInsertion`. `SolverCore.TreeAdd` is
  the sorted-list view of the same insertion. It is proved to agree with
  the tree whenever the comparator orders by a key, which covers the task
  comparator without an order and the arrival-time and integer comparators.
  `SolverCore.PrecedenceTreeOrder` and `SolverCore.PrecedenceWalkOrder` show
  four tasks on which the two part ways.

## Model

| member | source | states |
|---|---|---|
| TimeWindows.Diagnose | src/main/java/model/TimeWindow.java:17-31 | no message exactly when 0 ≤ earliest ≤ soft ≤ hard; each of the five checks has its own message, reported exactly when the earlier checks pass and it fails |
| TimeWindows.Construct | src/main/java/model/TimeWindow.java:17-37 | the window keeps the three given bounds even when a message is printed, which happens unless 0 ≤ earliest ≤ soft ≤ hard |
| Demands.Diagnose | src/main/java/model/Demand.java:30-42 | no message exactly when there is a location and workload and profit are non-negative; an empty location list, a negative workload and a negative profit each have their own message, in check order |
| Demands.Construct | src/main/java/model/Demand.java:30-48 | all four arguments are stored unchanged, and a message is printed exactly when a check fails |
| Tasks.New | src/main/java/model/Task.java:39-50 | a new task has the given id and demand, status UNCOMPLETED and an empty allocable map |
| Tasks.EqualsIgnoresState | src/main/java/model/Task.java:57-59 | task equality compares ids only: a task equals itself with any other demand, status or allocable map |
| Agents.New | src/main/java/model/Agent.java:53-78 | a new agent has the given id, speed and initial location; it is IDLE at that location, with arrival and end time 0 and no target |
| Agents.TravelTimeTo | src/main/java/model/Agent.java:80-86 | the travel time to a destination is measured from the current location, not the initial one |
| Allocations.Diagnose | src/main/java/model/CoalitionAllocation.java:26-42 | no message exactly when the location is one of the task's, the coalition is non-empty and 0 ≤ start ≤ end; the invalid location, the empty coalition and start > end are each reported exactly when the earlier checks pass |
| Allocations.Construct | src/main/java/model/CoalitionAllocation.java:26-50 | every field holds its argument even when a message is printed, which happens exactly when the allocation is not valid |
| Allocations.Interval | src/main/java/model/CoalitionAllocation.java:64 | the reported interval is end − start + 1, so at least 1 for a valid allocation |
| Allocations.EqualsIsEquivalenceIgnoringValue | src/main/java/model/CoalitionAllocation.java:74-85 | equality is reflexive, symmetric and transitive, and it ignores the coalition value |
| Allocations.EqualsComparesCoalitionElementwise | src/main/java/model/CoalitionAllocation.java:74-85 | with task, location and times equal, two allocations are equal exactly when the coalitions have the same agent ids in the same order |
| Marsc.Diagnose | src/main/java/model/MARSC.java:31-39 | no message exactly when both the task and the agent lists are non-empty; an empty task list is reported first |
| Marsc.MaxHardLatestIsMaximum | src/main/java/model/MARSC.java:58-62 | the horizon is ≥ 0, bounds every task's hard deadline, and is some task's hard deadline unless it is 0 |
| Marsc.StoredOrder | src/main/java/model/MARSC.java:44-56 | an order is kept exactly when it is present and non-empty, and it is kept as given |
| Marsc.New | src/main/java/model/MARSC.java:31-63 | the problem stores the given tasks and agents, the order only when it is non-empty, and the horizon as the maximum hard deadline; the printed message is the first failing check |
| Marsc.AllocationValue | src/main/java/model/MARSC.java:90-92 | the value of an allocation is the value function on its task, location and coalition |
| Scores.JavaDivSymmetric | src/main/java/model/Solution.java:127 | Java's integer division truncates toward zero: negating the dividend or the divisor negates the quotient |
| Scores.JavaDivNonNegative | src/main/java/model/Solution.java:127 | on a non-negative dividend and a positive divisor, Java's division is the Euclidean one; it is 0 below the divisor and ≥ 1 from it on |
| Scores.AccumulateInterval | src/main/java/solvers/Solver.java:82-86 | the loop over t in [s, e] adds exactly the interval score to its initial value |
| Scores.UnitFullProfitUntilHard | src/main/java/model/Solution.java:120-127 | up to the hard deadline the decay quotient is 0, so each unit, even after the soft deadline, is worth the full profit |
| Scores.UnitNonPositivePastHard | src/main/java/model/Solution.java:123-127 | past the hard deadline each unit adds at most 0 |
| Scores.IntervalFullProfitUntilHard | src/main/java/solvers/Solver.java:78-88 | an interval ending by the hard deadline is worth (e − s + 1)·profit, and an empty interval (s > e) is worth 0 |
| Scores.IntervalSplit | src/main/java/solvers/Solver.java:82-86 | the score of [s, e] is the score of [s, m] plus the score of [m + 1, e] |
| Solutions.AgentsOfIsUnion | src/main/java/model/Solution.java:47-49 | the agents of a solution are exactly the ids of the members of its coalitions |
| Solutions.Build | src/main/java/model/Solution.java:43-50 | the two-argument constructor keeps the tasks and allocations, collects the coalitions' agents, has score −1 and no completion times |
| Solutions.New | src/main/java/model/Solution.java:43-50 | the loop over the coalitions builds exactly that solution |
| Solutions.NewWithScore | src/main/java/model/Solution.java:52-55 | the three-argument constructor is the two-argument one with the given stored score |
| Solutions.LastWorkingTime | src/main/java/model/Solution.java:58-64 | the result is the end time of the last allocation of the array; when the allocations are in end-time order no allocation ends later |
| Solutions.EqualsRefinesShallowEquals | src/main/java/model/Solution.java:77-87 | equal solutions complete the same tasks; replacing the allocations keeps shallow equality and keeps equality exactly when the allocations are the same; equality is symmetric |
| Solutions.ScoreOfAppend | src/main/java/model/Solution.java:118-130 | the score of two concatenated allocation lists is the sum of their scores |
| Solutions.ScoreWithinDeadlines | src/main/java/model/Solution.java:118-130 | when every allocation ends by its hard deadline the score is the full profit of every unit worked |
| Solutions.ComputeScore | src/main/java/model/Solution.java:109-130 | the double loop over allocations and time units computes the sum of the allocation scores |
| Solutions.GetScore | src/main/java/model/Solution.java:109-141 | `getScore(true)` recomputes the score and stores it; `getScore(false)` returns the stored score and changes nothing |
| Solutions.CompareByStartTime | src/main/java/model/Solution.java:18-26 | the comparator is never 0, and it is negative exactly when the left allocation starts earlier, or starts at the same time and ends no later |
| Solutions.SortAllocations | src/main/java/model/Solution.java:98-100 | sorting in place leaves the array ordered by start time, then end time, and a permutation of what it was |
| Solutions.InsertDown | src/main/java/model/Solution.java:99 | one insertion step extends the sorted prefix by one element and permutes the array |
| Solutions.Sort | src/main/java/model/Solution.java:98-101 | `sort()` returns the same solution with its allocations sorted by start time and permuted |
| SolverCore.PredecessorComesFirst | src/main/java/solvers/Solver.java:50-57 | a task whose mapped predecessor is the other compares positive; a task that is the other's predecessor (and not the reverse) compares negative |
| SolverCore.CompareByWindows | src/main/java/solvers/Solver.java:59-62 | without a precedence, tasks compare by earliest time, then hard deadline; they compare 0 exactly when both agree |
| SolverCore.CompareZeroIff | src/main/java/solvers/Solver.java:49-63 | two tasks compare 0 exactly when neither is the other's mapped predecessor and they share earliest and hard times |
| SolverCore.CompareAntisymmetric | src/main/java/solvers/Solver.java:49-63 | when the two tasks are not predecessors of each other, swapping the arguments flips the sign of the comparison |
| SolverCore.TreeAddElements | src/main/java/solvers/BNT.java:140 | the sorted-list walk keeps the elements and adds at most the new one |
| SolverCore.TreeOfSubMultiset | src/main/java/solvers/BNT.java:138-140 | the sorted-list view of a tree set holds only added elements, each at most as often as it was added |
| SolverCore.TreeAddMembers | src/main/java/solvers/BNT.java:140 | after an add, the members are the old members and possibly the new element |
| SolverCore.TreeAddKeyed | src/main/java/solvers/BNT.java:140 | with a comparator that orders by a key, adding keeps the set strictly sorted; it adds the element exactly when its key is new and leaves the set unchanged otherwise |
| SolverCore.TreeOfKeyed | src/main/java/solvers/BNT.java:138-140 | the sorted-list view of a tree set built with a key comparator is strictly sorted, has an element of every added key, and keeps the first element of each key |
| SolverCore.KeyCompare | src/main/java/solvers/Solver.java:59-62 | the comparison of (earliest, hard) pairs is negative exactly when the first pair is lexicographically smaller, and 0 exactly when they are equal |
| SolverCore.Ins | src/main/java/solvers/BNT.java:138-140 | the descent of `TreeMap.put`, left below 0 and right above 0, stopping at 0, with `fixAfterInsertion` applied on the way back; its contract is stated by InsElements and InsKeyed |
| SolverCore.FixLeftInorder | src/main/java/solvers/BNT.java:138-140 | a fix-up step at a grandparent whose left child received the key (recoloring, or one or two rotations) leaves the iteration order unchanged |
| SolverCore.FixRightInorder | src/main/java/solvers/BNT.java:138-140 | the same for a grandparent whose right child received the key |
| SolverCore.PutInorder | src/main/java/solvers/BNT.java:138-140 | coloring the root black after an insertion leaves the iteration order unchanged |
| SolverCore.InsElements | src/main/java/solvers/BNT.java:140 | for any comparator, a put keeps every element of the tree and adds at most the new one |
| SolverCore.TreeSetOfElements | src/main/java/solvers/BNT.java:138-140 | for any comparator, a tree set holds only added elements, each at most as often as it was added |
| SolverCore.InsLeft | src/main/java/solvers/BNT.java:140 | a put that descends left changes only the part of the iteration order before the entry's key |
| SolverCore.InsRight | src/main/java/solvers/BNT.java:140 | a put that descends right changes only the part of the iteration order after the entry's key |
| SolverCore.TreeAddBefore | src/main/java/solvers/BNT.java:140 | the sorted-list walk leaves a suffix alone once the new element compares below the suffix's first element |
| SolverCore.TreeAddPast | src/main/java/solvers/BNT.java:140 | the sorted-list walk passes over a prefix whose every element the new one compares above |
| SolverCore.SortedParts | src/main/java/solvers/BNT.java:138-140 | the in-order parts around a key of a strictly sorted set are strictly sorted and lie below and above that key |
| SolverCore.AboveAll | src/main/java/solvers/Solver.java:59-62 | under a key order, an element compared at least equal to a key compares above everything below that key |
| SolverCore.InsKeyed | src/main/java/solvers/BNT.java:140 | under a key-order comparator, a put into a strictly sorted tree changes the iteration order exactly as the sorted-list walk does |
| SolverCore.TreeSetOfKeyed | src/main/java/solvers/BNT.java:138-140 | under a key-order comparator, the tree iterates exactly in the order the sorted-list walk builds |
| SolverCore.TaskOrder | src/main/java/solvers/BNT.java:138-140 | the task set of BNT, EDF (src/main/java/solvers/EDF.java:31-32) and ANT (src/main/java/solvers/ANT.java:150-151) is the iteration order of the red-black tree built by adding the tasks in array order; TaskOrderPositions, TaskOrderUnordered, TaskOrderKeepsFirst and PrecedenceTreeOrder state its properties |
| SolverCore.PrecedenceTreeOrder | src/main/java/solvers/Solver.java:49-63 | with earliest times 1, 3, 2, 5 and task 3 the predecessor of task 0, the task set iterates tasks 0, 2, 1, 3 |
| SolverCore.PrecedenceWalkOrder | src/main/java/solvers/Solver.java:49-63 | on the same tasks the sorted-list walk would give 3, 0, 2, 1, so this comparator is not a key order and the tree shape decides the order |
| SolverCore.TaskOrderPositions | src/main/java/solvers/BNT.java:138-140 | the task set holds indices of the task array, each at most once |
| SolverCore.TaskOrderUnordered | src/main/java/solvers/BNT.java:138-140 | without an order, the task set is strictly sorted by earliest time, then hard deadline, and every task's pair of times is represented |
| SolverCore.TaskOrderKeepsFirst | src/main/java/solvers/BNT.java:138-140 | without an order, of tasks that tie on both times only the first in the array is kept |
| SolverCore.MarginalScore | src/main/java/solvers/Solver.java:78-89 | `getMarginalScore(task, s, e)` is the task's interval score over [s, e] |
| Growth.Ceil | src/main/java/solvers/BNT.java:59 | `Math.ceil`: the least integer at or above x |
| Growth.StepTimes | src/main/java/solvers/BNT.java:51-64 | one step's arithmetic: the value of the sub-coalition, its contribution, the start time max(arrival + offset, earliest), and the end time clamped to at least the start |
| Growth.GrowCoalition | src/main/java/solvers/BNT.java:44-85 | the loop over arrivals returns exactly the step-by-step specification; CTS's copy of the loop is the same routine with offset 1 |
| Growth.GrowCharacterisation | src/main/java/solvers/BNT.java:65-85 | a solution is returned exactly when some step is the first to reach the workload and its end time is within the hard deadline; it is then the closed-form outcome of that step |
| Growth.GrowReachesCrossing | src/main/java/solvers/BNT.java:50-83 | from any step up to the first crossing, the loop returns the outcome of the crossing step when it ends by the hard deadline, and nothing otherwise |
| Growth.GrowNeverCrosses | src/main/java/solvers/BNT.java:50-85 | when no step reaches the workload the loop returns nothing |
| Growth.GrowFinishes | src/main/java/solvers/BNT.java:70-81 | at the step that reaches the workload the loop adds the final allocation, and returns it only when it ends by the hard deadline, completing the task at that end time |
| Growth.GrowContinues | src/main/java/solvers/BNT.java:65-69 | a step that does not reach the workload and is not the last records its allocation up to the next arrival and adds its marginal score |
| Growth.GrowRunsOut | src/main/java/solvers/BNT.java:65-69 | a last step that does not reach the workload ends the loop with nothing |
| Growth.OutcomeShape | src/main/java/solvers/BNT.java:59-79 | the outcome covers exactly the task; step k's allocation uses sub-coalition k at the location and starts at max(arrival + offset, earliest); earlier steps end at the next arrival; the completion time is the last end time; the stored score is the recomputed one |
| Growth.OutcomeAllocationsValid | src/main/java/solvers/BNT.java:67-71 | with non-negative arrivals spaced by at least the offset and a location of the task, every allocation passes the allocation constructor's checks |
| Growth.CrossingEndIsFirstSufficientUnit | src/main/java/solvers/BNT.java:59 | the crossing end time is the first unit at which the crossing sub-coalition has done the remaining work: one unit fewer would not suffice |
| Growth.CeilingUnits | src/main/java/solvers/BNT.java:59 | with c = ceil(a + r / v) and v > 0, c − a units of v cover r and c − a − 1 units do not |
| Bnt.Arrive | src/main/java/solvers/BNT.java:98-100 | only the arrival time changes; it is the later of the reach time and the earliest time |
| Bnt.PrepareAgents | src/main/java/solvers/BNT.java:97-103 | every agent that reaches the location by the hard deadline gets its arrival time set, and every other agent is unchanged |
| Bnt.EligibleMembers | src/main/java/solvers/BNT.java:97-103 | the agents offered to the tree set are exactly the reaching agents with their arrival times set |
| Bnt.AssignableSorted | src/main/java/solvers/BNT.java:95-101 | the assignable agents are strictly sorted by arrival time; of agents tied on it, only the first is kept |
| Bnt.AssignableMembers | src/main/java/solvers/BNT.java:97-104 | every assignable agent is a reaching agent with its arrival time set |
| Bnt.AssignableCovers | src/main/java/solvers/BNT.java:95-101 | every reaching agent's arrival time is the arrival time of some assignable agent |
| Bnt.AssignableWithinWindow | src/main/java/solvers/BNT.java:98-100 | with a valid window, every assignable agent arrives between the earliest time and the hard deadline |
| Bnt.GetAssignable | src/main/java/solvers/BNT.java:90-106 | the loop leaves the agent array as described above and returns the assignable set |
| Bnt.EligibleIgnoresArrival | src/main/java/solvers/BNT.java:98-100 | which agents are eligible, and their new arrival times, do not depend on their old arrival times |
| Bnt.CandidateOutcome | src/main/java/solvers/BNT.java:26-86 | a location's solution, when there is one, is the closed-form outcome of the first step reaching the workload, ending by the hard deadline |
| Bnt.CandidateShape | src/main/java/solvers/BNT.java:50-79 | a location's solution covers the task alone, using the first k + 1 assignable agents at step k, starting at the newest member's arrival clamped to the earliest time; it ends by the hard deadline, its completion time is the last end time and its stored score is the recomputed one |
| Bnt.CandidateWithinDeadline | src/main/java/solvers/BNT.java:74-79 | with a valid window, every allocation of a location's solution ends by the hard deadline |
| Bnt.CandidateValid | src/main/java/solvers/BNT.java:67-71 | with a valid window and one of the task's locations, every allocation passes the allocation constructor's checks |
| Bnt.CandidateIgnoresArrival | src/main/java/solvers/BNT.java:113-116 | a location's solution does not depend on the arrival times the agents had before |
| Bnt.FirstBestStep | src/main/java/solvers/BNT.java:117-119 | replacing the best only on a strictly higher score keeps the first best of the candidates seen so far |
| Bnt.FirstBestUnique | src/main/java/solvers/BNT.java:117-119 | the first best of a list of candidates is unique |
| Bnt.BestSingletonIsBest | src/main/java/solvers/BNT.java:108-124 | the best one-task solution is None exactly when no location has a solution; otherwise it scores at least as high as every location's solution and strictly higher than the earlier ones; only arrival times change |
| Bnt.GetSingletonSolution | src/main/java/solvers/BNT.java:108-124 | the loop over locations returns that best solution and the agents with their arrival times set |
| Bnt.LocationTurn | src/main/java/solvers/BNT.java:113-120 | one location's turn replaces the best only on a strictly higher recomputed score, and what it keeps has its stored score equal to the recomputed one |
| Bnt.BestSingletonIgnoresArrival | src/main/java/solvers/BNT.java:108-124 | a task's best one-task solution does not depend on the agents' old arrival times |
| Bnt.PickIsGreedy | src/main/java/solvers/BNT.java:146-155 | a round picks the first element of the task set whose offer has the highest stored score, or none when no uncompleted task has one; the pick is uncompleted and gets its own best solution; only arrival times change |
| Bnt.PickFromNext | src/main/java/solvers/BNT.java:148-155 | each step of the inner loop keeps the pick the first best offer so far |
| Bnt.PickBest | src/main/java/solvers/BNT.java:147-155 | the inner loop computes that pick |
| Bnt.SingletonShape | src/main/java/solvers/BNT.java:108-124 | a best one-task solution covers just its task, at locations of the task; its stored score is the recomputed one and its completion time is the last end time; with a valid window, its allocations are valid and end by the hard deadline |
| Bnt.UpdateAgentStatusEffect | src/main/java/solvers/BNT.java:126-134 | only the members of the last allocation's coalition change, and only their end time and location, which become the last allocation's |
| Bnt.UpdateAgentStatus | src/main/java/solvers/BNT.java:126-134 | the loop over the last coalition computes exactly that update |
| Bnt.MarkCompleted | src/main/java/solvers/BNT.java:163-164 | marking tasks completed changes nothing about a task but its status |
| Bnt.Round | src/main/java/solvers/BNT.java:147-165 | a round changes no task but its status |
| Bnt.Rounds | src/main/java/solvers/BNT.java:146-166 | the rounds change no task but its status |
| Bnt.StartConsistent | src/main/java/solvers/BNT.java:142-143 | `solve` starts with an empty completed set and no allocations, which is consistent |
| Bnt.RoundCommits | src/main/java/solvers/BNT.java:157-165 | a round that picks commits one uncompleted task of the task set: its own best one-task solution covering it alone; its id joins the completed set, its score is recorded under its id, its allocations are appended, and it alone becomes COMPLETED |
| Bnt.RoundScore | src/main/java/solvers/BNT.java:160-165 | a committed round adds the picked solution's score to the score of the allocations |
| Bnt.RoundStops | src/main/java/solvers/BNT.java:157-158 | a round with no pick changes only arrival times, and every task of the task set is then completed or has no one-task solution |
| Bnt.RoundMovesCoalition | src/main/java/solvers/BNT.java:161 | after a committed round the last coalition has worked until the task's completion time at a location of the task; the other agents only had their arrival times set |
| Bnt.CommitMovesCoalition | src/main/java/solvers/BNT.java:126-134 | moving the last coalition of a one-task solution, from agents that differ only in arrival times, gives that effect |
| Bnt.CommitConsistent | src/main/java/solvers/BNT.java:160-165 | committing one task's solution keeps the consistency of `solve`: tasks differ only in status, COMPLETED tasks are the completed ones, completed ids are task ids with a recorded score, and allocations belong to completed tasks, can be scored and, for a valid window, are valid and end by the hard deadline |
| Bnt.RoundConsistent | src/main/java/solvers/BNT.java:147-165 | every round keeps that consistency |
| Bnt.RoundsConsistent | src/main/java/solvers/BNT.java:146-166 | all the rounds keep it |
| Bnt.SolvedConsistent | src/main/java/solvers/BNT.java:137-169 | after `solve` the consistency holds with respect to the initial tasks |
| Bnt.OptimalScoresAreBest | src/main/java/solvers/BNT.java:180-189 | a task's optimal singleton score is at least the score of its solution at every location, from agents idle at their initial locations; it is one of those scores, or 0 when there is none |
| Bnt.ResetArrivals | src/main/java/solvers/BNT.java:187-188 | every arrival time becomes 0 and nothing else changes |
| Bnt.OptimalScoreStep | src/main/java/solvers/BNT.java:183-188 | resetting arrival times between tasks does not change any task's optimal score |
| Bnt.ComputeOptimalScores | src/main/java/solvers/BNT.java:181-189 | the loop over the tasks computes the optimal singleton scores |
| Bnt.RunRound | src/main/java/solvers/BNT.java:147-165 | one execution of the outer loop's body is one round |
| Bnt.RoundsStep | src/main/java/solvers/BNT.java:146-166 | the rounds stop at the first round with no pick and go on otherwise |
| Bnt.RunRounds | src/main/java/solvers/BNT.java:146-166 | the outer loop of `solve` computes the rounds |
| Bnt.RoundTurn | src/main/java/solvers/BNT.java:147-166 | one turn of the outer loop either stops with the rounds' result or leaves the rest of the loop to compute it |
| Bnt.BntSolver.constructor | src/main/java/solvers/BNT.java:21-24 | the solver starts from the problem's tasks, agents and order, with no solution and no scores |
| Bnt.BntSolver.Solve | src/main/java/solvers/BNT.java:137-169 | `solve` leaves the tasks, agents and scores of the rounds, and the solution built from the completed tasks and all allocations |
| Bnt.BntSolver.GetOptimalSingletonScores | src/main/java/solvers/BNT.java:176-193 | the first call computes the optimal singleton scores from clones of the agents and stores them; later calls return the stored scores; nothing else changes |
| Edf.Visit | src/main/java/solvers/EDF.java:39-50 | a visit never changes any task |
| Edf.Pass | src/main/java/solvers/EDF.java:38-51 | the pass visits the elements of the task set in order, and never changes any task's status |
| Edf.VisitCommits | src/main/java/solvers/EDF.java:39-50 | a task with a one-task solution is committed at once: it alone joins the completed set, its score is recorded under its id and its allocations are appended, adding their score; a task without one is skipped, and only arrival times change |
| Edf.CommitKeepsPass | src/main/java/solvers/EDF.java:44-50 | committing a task's one-task solution keeps what EDF keeps: unchanged tasks, completed ids that are task ids with a recorded score, and allocations of completed tasks that can be scored and, for a valid window, are valid and end by the hard deadline |
| Edf.VisitConsistent | src/main/java/solvers/EDF.java:39-50 | every visit keeps those facts |
| Edf.PassConsistentFrom | src/main/java/solvers/EDF.java:38-51 | the rest of the pass keeps them |
| Edf.PassedConsistent | src/main/java/solvers/EDF.java:30-54 | EDF's result holds only valid allocations of the tasks it completed, each with its score recorded |
| Edf.VisitTask | src/main/java/solvers/EDF.java:39-50 | the loop body computes one visit |
| Edf.RunPass | src/main/java/solvers/EDF.java:38-51 | the loop computes the pass |
| Edf.EdfSolver.constructor | src/main/java/solvers/EDF.java:25-27 | the solver starts from the problem's tasks, agents and order, with no solution, no scores and an empty task set |
| Edf.EdfSolver.Solve | src/main/java/solvers/EDF.java:30-54 | `solve` stores the task set in the iteration order of the red-black tree and leaves the tasks unchanged; agents and scores are the pass's; the solution is built from the completed tasks and all allocations |
| Toolkit.SelectedMembers | src/main/java/toolkit/Utils.java:43-48 | the selection holds exactly the agents whose flag is true |
| Toolkit.SelectedAll | src/main/java/toolkit/Utils.java:37-38 | when every flag is true the selection is the whole array, so returning the input itself agrees with copying |
| Toolkit.PrefixSelected | src/main/java/toolkit/Utils.java:43-48 | the selection over a prefix of the agents is a prefix of the whole selection, which is why the early `break` is harmless |
| Toolkit.GetSubArray | src/main/java/toolkit/Utils.java:27-51 | the input array itself when the size is its length; otherwise a fresh array holding the first `size` flagged agents in index order |
| Toolkit.CopySelected | src/main/java/toolkit/Utils.java:40-50 | the copying loop fills a fresh array with the first `size` flagged agents |
| Toolkit.GetRangeArray | src/main/java/toolkit/Utils.java:90-103 | none (the source's null) exactly for n < 0; otherwise a fresh array of length n with entry i equal to i |
| Toolkit.IntersectionMeaning | src/main/java/toolkit/Utils.java:105-125 | the intersection does not depend on the argument order; it is none exactly when a coalition is empty or they share no agent, and otherwise it is the set of common agents |
| Toolkit.DeepCloneInts | src/main/java/toolkit/Utils.java:127-133 | a fresh array with the same entries |
| Toolkit.ClonesAreReset | src/main/java/toolkit/Utils.java:135-141 | a clone keeps id, speed and initial location, and sits IDLE at its initial location with arrival and end time 0 and no target |
| Toolkit.DeepCloneAgents | src/main/java/toolkit/Utils.java:135-141 | a fresh array of the clones |
| Toolkit.ToPrimitiveArray | src/main/java/toolkit/Utils.java:143-155 | none exactly for none; otherwise a fresh array of the list's length with the present entries packed at the front in order and zeros after them |
| Cts.Reset | src/main/java/solvers/CTS.java:194-198 | a reset allocable map has exactly the task's possible locations as keys, each with no agent, and the task is otherwise unchanged |
| Cts.ResetAllocableMap | src/main/java/solvers/CTS.java:194-198 | the loop over the possible locations builds that map |
| Cts.ResetAll | src/main/java/solvers/CTS.java:30-32 | every task gets a fresh map covering exactly its possible locations with empty sets, and nothing else changes |
| Cts.ResetTasks | src/main/java/solvers/CTS.java:30-32 | the constructor's loop over the tasks resets them all |
| Cts.Reordered | src/main/java/solvers/CTS.java:38-44 | with one entry per task, slot i holds the task the order names at i; otherwise the tasks are unchanged |
| Cts.ReorderedCover | src/main/java/solvers/CTS.java:35-45 | reordering keeps every allocable map covering its task's locations |
| Cts.ReorderedPermutes | src/main/java/solvers/CTS.java:38-42 | under an order that is a permutation, every task of the problem takes exactly one slot |
| Cts.FindTask | src/main/java/solvers/CTS.java:70-71 | following a task reference finds the first task with that id, or −1 exactly when there is none |
| Cts.Consider | src/main/java/solvers/CTS.java:82-90 | with `&&` binding tighter than `||`, an empty slot takes the first location it is shown, reachable or not; a filled slot changes only for a strictly earlier arrival before the new task's hard deadline, on a task with a strictly earlier hard deadline, when the current candidate's one-task solution (if any) ends at or after that arrival |
| Cts.ScanLocationsFacts | src/main/java/solvers/CTS.java:82-91 | over one task's locations the slot either stays or ends on that task at a scanned location; an empty slot always ends on it; a filled slot only moves to an earlier arrival on a task with an earlier hard deadline |
| Cts.ScanTasksFacts | src/main/java/solvers/CTS.java:65-93 | over the tasks, the UNCOMPLETED slot and the ALLOCATED slot stay well formed; each ends filled exactly when some eligible task of its status (predecessor COMPLETED) has a location; once filled, arrival and hard deadline never increase |
| Cts.PotentialChoice | src/main/java/solvers/CTS.java:53-106 | nothing changes when no eligible task has a location; otherwise the agent is committed to an eligible task at one of its locations, with the arrival time from its current location, and to an UNCOMPLETED task whenever there is an eligible one |
| Cts.CommitEffect | src/main/java/solvers/CTS.java:95-105 | a commit makes the task ALLOCABLE, adds the agent to the allocable set at the chosen location and sets its target, target location and arrival time; every other task, agent, field and map entry is unchanged |
| Cts.Potential | src/main/java/solvers/CTS.java:53-106 | offering a task to an agent changes no task's identity or demand, no solution, the clock or the counter |
| Cts.SetPotentialAllocationsTo | src/main/java/solvers/CTS.java:53-106 | the scan-and-commit loops compute that offer |
| Cts.ArrivalKeysFacts | src/main/java/solvers/CTS.java:138-150 | the keys of the arrival tree map are the members' arrival times, each once and in increasing order |
| Cts.MembersClamped | src/main/java/solvers/CTS.java:140-141 | after clamping, every feasible agent arrives at or after the earliest time |
| Cts.GroupsWellFormed | src/main/java/solvers/CTS.java:153-158 | every step's sub-coalition has a member, so the growth routine is well formed |
| Cts.GroupAllocations | src/main/java/solvers/CTS.java:153-170 | step k's coalition is exactly the agents arrived by the k-th key, and it starts one unit after that key, clamped to the earliest time |
| Cts.CtsCandidateOutcome | src/main/java/solvers/CTS.java:120-192 | CTS's one-task solution, when there is one, is the closed-form outcome of the first group whose work reaches the workload, ending by the hard deadline |
| Cts.CtsCandidateShape | src/main/java/solvers/CTS.java:138-170 | that solution covers the task alone and is grouped by arrival time as above |
| Cts.CtsCandidateValid | src/main/java/solvers/CTS.java:173-185 | with a valid window and a location of the task, its allocations are valid and end by the hard deadline |
| Cts.GroupOutcomeValid | src/main/java/solvers/CTS.java:166-178 | the same holds for the grouped outcome of any crossing step ending by the hard deadline |
| Cts.ClampFeasible | src/main/java/solvers/CTS.java:140-146 | the clamping loop raises each feasible agent's arrival to the earliest time and lists those agents |
| Cts.ArrivalTree | src/main/java/solvers/CTS.java:138-150 | the keys are the tree set of the arrival times |
| Cts.GroupsOf | src/main/java/solvers/CTS.java:153-157 | for each key, the agents arrived by it |
| Cts.GetSingletonSolution | src/main/java/solvers/CTS.java:120-192 | the clamping, grouping and growth loops compute CTS's one-task solution and the agents with their clamped arrival times |
| Cts.ImproveAt | src/main/java/solvers/CTS.java:233-249 | one location of an ALLOCABLE task changes no task, the clock or the counter |
| Cts.ImproveAtNoWorse | src/main/java/solvers/CTS.java:246-248 | the task's solution is only replaced by one with a strictly higher stored score, and no other task's solution changes |
| Cts.ImproveNoWorse | src/main/java/solvers/CTS.java:233-249 | over all the task's locations the same holds |
| Cts.ImproveLocation | src/main/java/solvers/CTS.java:234-248 | one location's turn, with the agents already allocated that target the location, computes that step |
| Cts.CollectPrior | src/main/java/solvers/CTS.java:239-242 | the loop keeps the agents of the task's solution that target the location |
| Cts.ImproveTask | src/main/java/solvers/CTS.java:233-249 | the loop over the task's locations computes the improvement |
| Cts.SettleDispatches | src/main/java/solvers/CTS.java:251-264 | with a solution the task becomes ALLOCATED; its agents that have arrived work at their target location, the others travel; other agents are untouched |
| Cts.DispatchAgents | src/main/java/solvers/CTS.java:255-261 | the loop over the solution's agents dispatches them |
| Cts.CompleteReleases | src/main/java/solvers/CTS.java:267-276 | a completed task becomes COMPLETED and is counted once; every agent of its solution becomes IDLE with no target task or location; other agents are untouched |
| Cts.ReleaseAgents | src/main/java/solvers/CTS.java:269-273 | the loop over the solution's agents releases them |
| Cts.TaskStepSettles | src/main/java/solvers/CTS.java:231-276 | an ALLOCABLE task's map is reset; without a solution it is UNCOMPLETED again; with one it is COMPLETED and counted exactly when the completion time has been reached, and ALLOCATED otherwise; no other task changes |
| Cts.TaskStepMethod | src/main/java/solvers/CTS.java:231-276 | the task loop's body computes that step |
| Cts.AgentStep | src/main/java/solvers/CTS.java:214-228 | an agent's turn changes no task's identity or demand, no solution, the clock or the counter |
| Cts.AgentStepMethod | src/main/java/solvers/CTS.java:216-227 | the agent loop's body computes that turn |
| Cts.AgentLoop | src/main/java/solvers/CTS.java:214-228 | the loop over the agents computes the agents' part of a tick |
| Cts.AgentTurn | src/main/java/solvers/CTS.java:215-227 | one turn of the agent loop leaves the rest of the loop to compute the same state |
| Cts.TaskLoop | src/main/java/solvers/CTS.java:230-277 | the loop over the tasks computes the tasks' part of a tick |
| Cts.TaskTurn | src/main/java/solvers/CTS.java:231-276 | one turn of the task loop leaves the rest of the loop to compute the same state |
| Cts.TickMethod | src/main/java/solvers/CTS.java:214-277 | the body of the `do` loop computes one tick: the agent loop, then the task loop |
| Cts.Run | src/main/java/solvers/CTS.java:213-278 | the tick loop terminates, with the horizon minus the clock as its measure, and never changes a task's identity or demand |
| Cts.RunOnce | src/main/java/solvers/CTS.java:213-278 | one turn of the `do ... while` either stops with the state the whole run leaves, or goes on one time unit later within the horizon |
| Cts.RunLoop | src/main/java/solvers/CTS.java:213-278 | the `do ... while` loop computes the run |
| Cts.PotentialWf | src/main/java/solvers/CTS.java:53-106 | offering a task to an agent keeps the invariant of `solve`: tasks keep identity and demand, maps cover the locations, every held solution was built for its task, completed tasks stay completed, and the counter is the number of tasks completed since the start, each by its completion time |
| Cts.AgentStepWf | src/main/java/solvers/CTS.java:214-228 | an agent's turn keeps the invariant |
| Cts.AgentsFromWf | src/main/java/solvers/CTS.java:214-228 | the agent loop keeps the invariant |
| Cts.CandidateHolds | src/main/java/solvers/CTS.java:244 | a solution found for one of the task's locations was built for that task |
| Cts.ImproveAtWf | src/main/java/solvers/CTS.java:233-249 | one location's improvement keeps the invariant |
| Cts.ImproveWf | src/main/java/solvers/CTS.java:233-249 | the loop over the locations keeps the invariant |
| Cts.SettleWf | src/main/java/solvers/CTS.java:251-264 | settling an ALLOCABLE task keeps the invariant |
| Cts.CompleteWf | src/main/java/solvers/CTS.java:267-276 | completing a task keeps the invariant and counts the task |
| Cts.NewlyCompletedGrows | src/main/java/solvers/CTS.java:274-275 | completing a task that was not completed adds it, and only it, to the tasks completed since the start |
| Cts.TaskStepWf | src/main/java/solvers/CTS.java:230-277 | a task's turn keeps the invariant |
| Cts.TasksFromWf | src/main/java/solvers/CTS.java:230-277 | the task loop keeps the invariant |
| Cts.TickWf | src/main/java/solvers/CTS.java:213-277 | a tick keeps the invariant |
| Cts.ClockWf | src/main/java/solvers/CTS.java:278 | advancing the clock keeps the invariant |
| Cts.RunWf | src/main/java/solvers/CTS.java:213-278 | every state of the run keeps the invariant |
| Cts.CountBounded | src/main/java/solvers/CTS.java:275 | the counter never exceeds the number of tasks |
| Cts.RunStops | src/main/java/solvers/CTS.java:278 | the clock never goes back, and the loop stops only when no agent is busy, every task is counted, or the clock has passed the horizon |
| Cts.SolveOutcome | src/main/java/solvers/CTS.java:208-279 | from freshly reset tasks, the final state keeps the invariant, counts at most all tasks, and ended for one of the loop's three reasons |
| Cts.MergeMembers | src/main/java/solvers/CTS.java:286-291 | the merged tasks and allocations are exactly those of the solutions present |
| Cts.MergeScore | src/main/java/solvers/CTS.java:286-293 | when every present solution stores its recomputed score, the merge's score is the score of the merged allocations |
| Cts.Merge | src/main/java/solvers/CTS.java:281-294 | the loop over the slots computes the merge: the union of the tasks, all the allocations, and the sum of the stored scores |
| Cts.SolvedMerge | src/main/java/solvers/CTS.java:281-301 | the merge of what `solve` holds has as tasks the ids of the tasks with a solution and the recomputed score of its allocations; every allocation is for one of those tasks and, for a valid window, valid and within the hard deadline |
| Cts.SomeAgentsAreBusy | src/main/java/solvers/CTS.java:200-205 | true exactly when some agent is not IDLE |
| Cts.CtsSolver.constructor | src/main/java/solvers/CTS.java:27-33 | the solver's tasks have fresh allocable maps; the clock is 0 and there are no solutions |
| Cts.CtsSolver.WithOrder | src/main/java/solvers/CTS.java:35-45 | as the first constructor, then the tasks are taken in the given order when it has one entry per task |
| Cts.CtsSolver.AgentsAreBusy | src/main/java/solvers/CTS.java:200-205 | the solver's busy test on its own agents |
| Cts.CtsSolver.Solve | src/main/java/solvers/CTS.java:208-279 | `solve` leaves the tasks, agents, clock and solution slots of the run from fresh slots and a zero counter |
| Cts.CtsSolver.GetSolution | src/main/java/solvers/CTS.java:298-302 | the merge of the slots is computed on the first call and returned unchanged afterwards |
| Cts.CtsSolver.GetSingletonSolutionScores | src/main/java/solvers/CTS.java:304-310 | a fresh array holding each task's stored solution score, 0 for a task without one |
| Ant.ScheduleIds | src/main/java/solvers/ANT.java:223 | the ids of the scheduled tasks, position by position |
| Ant.PositionMap | src/main/java/solvers/ANT.java:220-223 | the map of `satisfiesOrder` has exactly the scheduled ids as keys, each sent to the last position holding it |
| Ant.BuildPositionMap | src/main/java/solvers/ANT.java:220-223 | the first loop of `satisfiesOrder` builds that map |
| Ant.PrecedenceLoop | src/main/java/solvers/ANT.java:225-236 | the second loop is false exactly at a scheduled task whose predecessor is missing from the map or mapped to a later position |
| Ant.CheckOrder | src/main/java/solvers/ANT.java:215-237 | the two loops compute `satisfiesOrder`, true at once for a missing or empty order |
| Ant.SatisfiesOrderMeaning | src/main/java/solvers/ANT.java:215-237 | for a schedule repeating no task, `satisfiesOrder` holds exactly when the order is missing or empty, or every scheduled task with a predecessor has it at an earlier or equal position |
| Ant.OrderForward | src/main/java/solvers/ANT.java:227-236 | a satisfied non-empty order puts every predecessor no later than its successor |
| Ant.OrderBackward | src/main/java/solvers/ANT.java:227-236 | conversely, such a schedule satisfies the order |
| Ant.OnlyPosition | src/main/java/solvers/ANT.java:222-223 | in a schedule repeating no task, the map sends the id at a position back to that position |
| Ant.MissingPredecessorFails | src/main/java/solvers/ANT.java:230-232 | a task whose predecessor is not scheduled fails the check, whatever the rest of the schedule |
| Ant.AdmitsMeaning | src/main/java/solvers/ANT.java:179 | without an order every permutation is evaluated; with an empty one none is; with a non-empty one, exactly those placing every predecessor no later than its successor |
| Ant.Swapped | src/main/java/solvers/ANT.java:167 | `ArrayUtils.swap`: the two entries trade places and every other entry stays |
| Ant.SwapInRange | src/main/java/solvers/ANT.java:167 | a swap keeps every entry a task index |
| Ant.SwapPermutes | src/main/java/solvers/ANT.java:167 | a swap keeps the same multiset of entries |
| Ant.SwapEntries | src/main/java/solvers/ANT.java:165-167 | the in-place swap of a Heap step exchanges a[j] and a[i], with j = 0 for even i and c[i] for odd i |
| Ant.RankBound | src/main/java/solvers/ANT.java:163-204 | the rank of Heap's counters stays below n!, so the loop terminates |
| Ant.RankAdvances | src/main/java/solvers/ANT.java:194-195 | a swap step raises counter i by one, returns to position 0 and raises the rank by one |
| Ant.RankCarries | src/main/java/solvers/ANT.java:202-203 | a reset step sets counter i back to 0 and moves on to i + 1 at the same rank |
| Ant.ChooseFacts | src/main/java/solvers/ANT.java:105-106 | the binomial coefficient is at least 1 for k ≤ n, n for k = 1 and 1 for k = n |
| Ant.ChooseBeyond | src/main/java/solvers/ANT.java:105-106 | the binomial coefficient is 0 for k > n |
| Ant.InitialisedMeaning | src/main/java/solvers/ANT.java:103-110 | a count not yet computed becomes C(n, k + 1) when that fits a long; when it does not, it stays −1, so its decrement gives −2 and stops the search at once; a computed count stays |
| Ant.Elect | src/main/java/solvers/ANT.java:114-116 | the incumbent after an evaluation is the better of the two, the old one on a tie, and never scores less than either |
| Ant.AppendPoint | src/main/java/solvers/ANT.java:121-125 | the trace update computes `Record` |
| Ant.RecordKeepsTrace | src/main/java/solvers/ANT.java:121-125 | recording keeps the trace well formed; it grows by one point exactly when the score beats the last one, with a time of at least 1, and is unchanged otherwise |
| Ant.VisitSound | src/main/java/solvers/ANT.java:78-87 | one scheduled task's turn keeps the evaluation sound |
| Ant.VisitMoves | src/main/java/solvers/ANT.java:81-82 | agents move only to the incumbent's last allocation |
| Ant.EvaluateFromSound | src/main/java/solvers/ANT.java:78-87 | the rest of the loop keeps the evaluation sound and the agents moved only that way |
| Ant.EvaluateSound | src/main/java/solvers/ANT.java:72-94 | an evaluation completes only scheduled tasks; its summed score is the score of its allocations, which are valid and for completed tasks; without an incumbent only arrival times change |
| Ant.CompletedBound | src/main/java/solvers/ANT.java:93 | with task ids equal to positions, an evaluation completes at most as many tasks as there are |
| Ant.MoveOne | src/main/java/solvers/ANT.java:59-63 | moving the agent with a given id touches only the agent carrying it |
| Ant.UpdateAgentStatusById | src/main/java/solvers/ANT.java:51-65 | the members of the last allocation are looked up by id and moved to its location and end time |
| Ant.UpdateKeepsIds | src/main/java/solvers/ANT.java:51-65 | moving agents keeps their ids distinct |
| Ant.AppendAll | src/main/java/solvers/ANT.java:84 | `Collections.addAll` appends the allocations in order |
| Ant.VisitTask | src/main/java/solvers/ANT.java:79-86 | the loop body for one scheduled task computes its turn and keeps agent ids distinct |
| Ant.SingletonKeepsIds | src/main/java/solvers/ANT.java:79 | the one-task search keeps agent ids distinct |
| Ant.EvaluateSchedule | src/main/java/solvers/ANT.java:78-87 | the loop over the schedule computes the evaluation |
| Ant.InitialSchedule | src/main/java/solvers/ANT.java:148-156 | the starting schedule has one entry per task |
| Ant.TaskSetBound | src/main/java/solvers/ANT.java:150-151 | the task set holds each task at most once |
| Ant.DistinctCard | src/main/java/solvers/ANT.java:150-151 | distinct members of a set are no more than the set |
| Ant.InitialScheduleShape | src/main/java/solvers/ANT.java:148-156 | with ids equal to positions, the starting schedule names each task of the task set once, in the iteration order of the red-black tree, then zeros |
| Ant.FillSchedule | src/main/java/solvers/ANT.java:152-156 | the loop fills the schedule and marks each used position's count −1; the rest stay 0 |
| Ant.Prepare | src/main/java/solvers/ANT.java:144-156 | the three fresh arrays of `solve`: the schedule, zero counters and the counts |
| Ant.SearchOkAdmitted | src/main/java/solvers/ANT.java:179-188 | an admitted permutation of the initial schedule, evaluated and offered to the incumbent, keeps the search's record |
| Ant.SearchOkSkipped | src/main/java/solvers/ANT.java:189-191 | a skipped permutation leaves the record and the incumbent alone |
| Ant.SearchOkStarted | src/main/java/solvers/ANT.java:157 | the first evaluated schedule starts the record |
| Ant.AntSolver.constructor | src/main/java/solvers/ANT.java:35-41 | BNT's start with a trace holding the point (0, 0) and all limits and counters at 0 |
| Ant.AntSolver.WithLimits | src/main/java/solvers/ANT.java:43-49 | the same, with the three limits set |
| Ant.AntSolver.UpdateSolution | src/main/java/solvers/ANT.java:114-138 | the incumbent is replaced only when missing or strictly beaten; a replacement with a stopwatch records the point and clears the consecutive counter; the timeout is set once the limit is passed |
| Ant.AntSolver.RecordPoint | src/main/java/solvers/ANT.java:117-133 | the stopwatch reading becomes the last solution time and the trace gets `Record`; the consecutive counter is cleared |
| Ant.AntSolver.CheckTimeout | src/main/java/solvers/ANT.java:136-137 | with a positive limit and a stopwatch, the timeout becomes set once a reading passes the limit; otherwise nothing changes |
| Ant.AntSolver.UpdateStoppingCondition | src/main/java/solvers/ANT.java:101-112 | for k ≥ 0 the count is initialised if needed and decremented, and the stop is set when the count minus the skipped permutations is at most 0, only when an incumbent with at most k + 1 tasks exists; for k < 0 nothing changes |
| Ant.AntSolver.GetSolutionForSchedule | src/main/java/solvers/ANT.java:72-94 | the evaluation is offered to the incumbent, which never gets worse and scores at least the evaluation; the stopping condition is updated for the number of completed tasks minus one |
| Ant.AntSolver.Consider | src/main/java/solvers/ANT.java:179-192 | an admitted permutation is evaluated and counted as investigated, applying the convergence counter only without a budget; otherwise it is counted as skipped and the consecutive counter resets |
| Ant.AntSolver.Investigate | src/main/java/solvers/ANT.java:180-188 | the admitted branch |
| Ant.AntSolver.ConsiderKeeping | src/main/java/solvers/ANT.java:179-192 | considering a permutation of the initial schedule keeps the search's record and counts it once |
| Ant.AntSolver.SwapStep | src/main/java/solvers/ANT.java:164-195 | a swap step swaps, considers the permutation and raises counter i |
| Ant.AntSolver.HeapStep | src/main/java/solvers/ANT.java:164-203 | one turn of Heap's loop: a swap step when c[i] < i, returning to 0 with the rank up by one; otherwise counter i resets and the walk moves on at the same rank |
| Ant.AntSolver.Begin | src/main/java/solvers/ANT.java:142-157 | the flags and counts are cleared, the counts array is fresh with −1 per task of the task set, the counters are zero, and the initial schedule is evaluated first |
| Ant.AntSolver.Walk | src/main/java/solvers/ANT.java:162-204 | the loop keeps every schedule a permutation of the initial one and the incumbent never worse; a positive budget is never exceeded; without a stop, timeout or budget it makes n! − 1 swap steps |
| Ant.AntSolver.Solve | src/main/java/solvers/ANT.java:141-213 | `solve` makes the start and then the walk, with the same guarantees |
| ValueTables.RealAbs | src/main/java/problems/NormalProblem.java:31 | `Math.abs` on reals: never negative, and the value or its negation |
| ValueTables.SizeIndex | src/main/java/problems/NormalProblem.java:39-40 | a coalition of size k reads entry k − 1; the empty coalition reads entry 0 |
| AgentBased.PerformanceMeaning | src/main/java/problems/AgentBasedProblem.java:27-29 | every agent's id is a key and no other is; performances are never negative; with distinct ids each agent keeps its own draw |
| AgentBased.PerformanceKeys | src/main/java/problems/AgentBasedProblem.java:28-29 | the keys are the agents' ids |
| AgentBased.PerformanceNonNegative | src/main/java/problems/AgentBasedProblem.java:29 | every performance is at least 0 |
| AgentBased.PerformanceOwnDraw | src/main/java/problems/AgentBasedProblem.java:28-29 | each agent's id maps to the absolute value of its own draw (a later agent with the same id overwrites) |
| AgentBased.DrawPerformance | src/main/java/problems/AgentBasedProblem.java:28-29 | the constructor's loop computes the performance map |
| AgentBased.SumMonotone | src/main/java/problems/AgentBasedProblem.java:42-45 | a coalition's value is never negative and adding a member never lowers it |
| AgentBased.AgentBasedProblem.constructor | src/main/java/problems/AgentBasedProblem.java:21-32 | one draw per agent, in agent order, and an empty cache |
| AgentBased.AgentBasedProblem.GetValue | src/main/java/problems/AgentBasedProblem.java:35-50 | the result is always the sum of the members' performances; a cached value is returned and the cache kept, otherwise the sum is cached under the task id and member ids |
| CongestedNdcs.RollBoundPositive | src/main/java/problems/CongestedNDCSProblem.java:39-40 | the roll's bound is between 1 and n for every size 1..n, so the roll is defined |
| CongestedNdcs.New | src/main/java/problems/CongestedNDCSProblem.java:23-48 | the table is built from one draw per size 1..n in order |
| CongestedNdcs.TableShape | src/main/java/problems/CongestedNDCSProblem.java:35-47 | the table's keys are exactly 1..n, each holding the entry drawn for it |
| CongestedNdcs.EntryBounds | src/main/java/problems/CongestedNDCSProblem.java:36-46 | an entry is the sample's absolute value unless perturbed on the roll of 0; a reduced entry lies between 0 and nine tenths of it |
| CongestedNdcs.ValueIsEntry | src/main/java/problems/CongestedNDCSProblem.java:51-60 | a coalition of k agents, 1 ≤ k ≤ n, is worth the entry for size k whatever the task, location or members; other sizes have no entry |
| LinearPerturbed.New | src/main/java/problems/LinearPerturbedProblem.java:23-31 | perturbed, one entry per agent, entry i being (i + 1) times the absolute sample |
| LinearPerturbed.ScaledBounds | src/main/java/problems/LinearPerturbedProblem.java:19-29 | with a sample from U(1, 2), entry i lies between i + 1 and 2(i + 1) |
| LinearPerturbed.ValueBySize | src/main/java/problems/LinearPerturbedProblem.java:34-42 | unperturbed the value is the coalition's size; perturbed, a coalition of k ≥ 1 agents is worth between k and 2k |
| Ndcs.PerturbedBounds | src/main/java/problems/NDCSProblem.java:48-69 | without either flag the base value is unchanged; with draws in range the perturbed value lies between two fifths of the base value and the base value |
| Ndcs.ChanceOfPositive | src/main/java/problems/NDCSProblem.java:55 | the ceiling of a positive ratio times 100 is at least 100, and exactly 100 for a ratio of at most 1 |
| Ndcs.TwoSubtractions | src/main/java/problems/NDCSProblem.java:54-68 | with both flags, a positive hard deadline and a coalition of 1..n agents, the deadline and congestion subtractions always happen; only the travel one depends on its roll |
| Ndcs.DrawPreValues | src/main/java/problems/NDCSProblem.java:33-35 | the base values are the absolute values of one normal sample per agent |
| Ndcs.NdcsProblem.constructor | src/main/java/problems/NDCSProblem.java:26-38 | the flags are stored, the base values drawn and the cache empty |
| Ndcs.NdcsProblem.GetValue | src/main/java/problems/NDCSProblem.java:41-74 | a cached value is returned and the cache kept; otherwise the perturbed value of base value k − 1 is computed from the hard deadline, the last member's travel time and the size, and cached; with draws in range cached values stay within their bounds |
| Normal.New | src/main/java/problems/NormalProblem.java:24-35 | one entry per agent, each built from its own draws |
| Normal.EntryMeaning | src/main/java/problems/NormalProblem.java:30-34 | an entry is never below its sample's absolute value, and exceeds it by exactly the bonus's absolute value only when modified on the roll of 0 |
| Normal.ValueIsEntry | src/main/java/problems/NormalProblem.java:38-42 | a coalition of size k is worth entry k − 1 (entry 0 when empty), whatever the task, location or members, and never negative |
| Uniform.New | src/main/java/problems/UniformProblem.java:23-37 | one entry per agent, each built from its own draws |
| Uniform.EntryBounds | src/main/java/problems/UniformProblem.java:29-36 | entries are never negative; with draws in range an unmodified entry is at most i + 1 and a modified one at most 10(i + 1), plus 50 on the bonus roll |
| Uniform.ValueIsEntry | src/main/java/problems/UniformProblem.java:40-44 | a coalition of size k is worth entry k − 1 (entry 0 when empty), whatever the task, location or members, and never negative |
| ProblemFactory.DispatchInverse | src/main/java/problems/Problem.java:16-39 | every accepted name selects the kind with that name and every named kind is selected by its name; an unknown name gives none; the two-flag NDCS class is never produced |
| Cts.MergeOf | src/main/java/solvers/CTS.java:281-294 | the merged solution holds the union of the tasks, all the allocations with their agents, and the sum of the stored scores |
| Cts.MergedTaskIff | src/main/java/solvers/CTS.java:286-291 | a task id is merged exactly when the task at some slot has a solution |
| Cts.MergedAllocationHeld | src/main/java/solvers/CTS.java:286-291 | every merged allocation is for a merged task and, for a valid window, valid and within the hard deadline |
| Growth.FirstCrossingExists | src/main/java/solvers/BNT.java:65-85 | when some step reaches the workload, a first such step exists |
| Growth.UniqueFirstCrossing | src/main/java/solvers/BNT.java:65-85 | the first step reaching the workload is unique |

## Left out

- The cycle test of the precedence map and `MARSC.clone` call into foreign libraries. The model takes the precedence map as given and has no deep copy of a problem.
- The anytime quality index, the median and the approximation ratio are float reporting computed after a run, and are not part of the scheduling.
- Printing, `toString`, verbose output and stack traces are I/O.
- `null` is not modelled. A missing value is an `Option`, and the null checks of the constructors are not modelled.
- `Location` and its subclasses are not part of this model. The travel time is a function that comes with the problem.
- The shallow copy of the problem's arrays in the solver constructor is not modelled. The model holds values, so the aliasing between the problem's agents and the solver's agents is left out.
- The CPLEX formulation, the benchmarks, the setup code, the random problem generator, the scripts, the SSG package and the tests are outside the scheduling core.
- Java `float` rounding is not modelled. Every value and score is a `real`, and the casts between `float` and `double` are identity.
- The random distributions are not modelled. Each constructor of the value-function family takes its draws in order as a parameter, and the lemmas state bounds under the assumption that the draws lie in their distribution's support.
- A uniform distribution with equal bounds throws in the source. The model does not raise that exception.
- The string cache key of the agent-based and NDCS value functions is modelled by the pair of the task id and the members' ids.
- Java `int` overflow of the chance computation `ceil(x) * 100` is not modelled.
- `ProblemFactory.GetInstance` returns the kind of instance and its flag, not a built instance.
- `Demands.Diagnose` does not model the null check of the time window.
- `Toolkit.GetSubArray`: requires `size` to be at most the number of true flags, as the documented meaning of `size` says ("the number of true values"). It also requires a size of 0 to come with a false first flag; otherwise the source writes past an empty array. The source runs on two inputs the model excludes. With `size` above the number of flags it returns an array padded with `null`. With `size` equal to the array's length it returns `agents` itself whatever the flags say. The source only prints a message for a length mismatch or a size below 1, then runs on, and the model does not follow it into an out-of-bounds access.
- `CongestedNdcs.ValueIsEntry`: states values only for coalition sizes 1..n. The source's map has no other key, and it raises an exception when it unboxes the missing entry.
- CTS: the dereference of a missing task reference (a `NullPointerException` in the source) is modelled as a guard that skips the step.
- `Cts.Prior` and `Cts.CollectPrior`: an agent of the task's current solution that has no target location is not collected. In the source, `targetLocation.equals` on it throws a `NullPointerException` (src/main/java/solvers/CTS.java:241).
- `Cts.LocationOr`: an agent that has already arrived but has no target location keeps its location. The source assigns it the `null` target (src/main/java/solvers/CTS.java:258).
- CTS: the iteration order of the source's `HashSet`s of agents is not modelled. The model uses the order of the agent array.
- CTS: `merge` concatenates the allocation lists. The source collects them into a set, which the model does not do.
- BNT and EDF: `solve` collects the allocations of the one-task solutions into a `HashSet` (src/main/java/solvers/BNT.java:143, 168; src/main/java/solvers/EDF.java:35, 49-53). `CoalitionAllocation` does not override `Object.equals`, so the set keeps every allocation, in an order set by identity hash codes. `Bnt.Round` and `Edf.Visit` append the allocations in the order they are committed, so the order of the final array is not modelled.
- `SolverCore.PositiveValues`: the engines are modelled only for value functions that are positive on every non-empty coalition (through `Bnt.Ready`, `Bnt.AllReady`, `Cts.Ready` and `SolverCore.EngineReady`). The source does not check this. With a value of 0, the end time of BNT's growth step (src/main/java/solvers/BNT.java:59) is the ceiling of a float division by zero, and the model does not follow that run.
- `Scores.DecayDefined`: the engines are modelled only for tasks whose hard deadline is not one below the soft deadline. The time-window constructor stores such a window after printing its message. Scoring a unit past its soft deadline then divides an `int` by zero (src/main/java/model/Solution.java:127, src/main/java/solvers/Solver.java:86) and throws `ArithmeticException`, which the model does not raise. Every window that passes the constructor's checks meets the condition.
- `Solutions.GetScore` and `Solutions.ComputeScore`: an allocation whose task id is not among the solution's tasks is scored like any other. In the source, `m.get(ca.task.id)` is then `null`, and adding to it throws a `NullPointerException` (src/main/java/model/Solution.java:122, 129).
- `Solutions.CompareByStartTime` and `SolverCore.CompareByWindows`: the comparators subtract `int`s (src/main/java/model/Solution.java:22, 25; src/main/java/solvers/Solver.java:60, 62), and the difference can wrap around. The model compares unbounded integers, so it agrees with the source only while the differences fit in 32 bits.
- `Solutions.EqualsRefinesShallowEquals`: compares the allocation arrays by value. `CoalitionAllocation.equals` is an overload, not an override of `Object.equals`, so the source's `Arrays.equals` (src/main/java/model/Solution.java:83-87) compares the allocations by identity.
- `Toolkit.IntersectionMeaning`: requires coalitions without a repeated agent. In the source, `Set.of` throws `IllegalArgumentException` on a repeated element (src/main/java/toolkit/Utils.java:109-110), and the model does not raise it.
- `Cts.CtsSolver.WithOrder`: requires every order entry to be a task index. An entry outside 0..n−1 throws `ArrayIndexOutOfBoundsException` in the source (src/main/java/solvers/CTS.java:41). A repeated entry puts the same task object into two slots, which later updates change together. The model copies the task value into both slots, so that aliasing is not captured.
- `Cts.CtsSolver.GetSolution`: requires `solve` to have run, or a solution to be cached. Before `solve`, the source passes a `null` array to `merge`, which dereferences it (src/main/java/solvers/CTS.java:298-302).
- `Cts.CtsSolver.GetSingletonSolutionScores`: requires `solve` to have run. Before that, the source dereferences the `null` array of one-task solutions (src/main/java/solvers/CTS.java:304-310).
- `Ant.AntSolver.GetSolutionForSchedule`: evaluates schedules one at a time. The source submits them to a thread pool and shuts it down at the end, so concurrent updates of the incumbent and unfinished evaluations are left out.
- `Ant.AntSolver.Walk`: proves that the walk makes n! − 1 swap steps when no stop, timeout or budget ends it. It does not prove that those steps produce every permutation of the schedule.
- ANT's stopwatch is a parameter of type `nat -> nat` that gives the elapsed milliseconds at each reading. It is always taken as running.
- ANT: a coalition member whose id is not among the agents is skipped when agents are moved. In the source this is a `NullPointerException`.
- ANT's counters are unbounded integers. A `long` overflow of them is not modelled.
- ANT: `permutationsLeft` is `null` in the source before the first `solve`. The model uses an array of length 0.
- `Ant.AntSolver.Consider`: an assignment of the convergence counter can overwrite a stopping condition that was already set. This is stated as the source does it, and not proved harmless.
- ANT: `getSolutionForSchedule` collects the tasks and allocations of an evaluation into sets. The model keeps the tasks as a set and the allocations as a list in evaluation order.
