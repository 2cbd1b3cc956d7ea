/**
 * Anytime Node Traversal: Heap's algorithm walks the permutations of the
 * task schedule; each permutation that respects the precedence order is
 * evaluated as a schedule (BNT's best one-task solution for each task in
 * turn), and the best evaluation so far is kept as the incumbent. The walk
 * stops when every permutation has been produced, when a budget of
 * permutations is used up, when the incumbent stops improving, when no
 * permutation of the incumbent's size can remain, or on a timeout.
 *
 * The source evaluates permutations on a thread pool; this model evaluates
 * each one at the point where it is submitted.
 */
module Ant {
  import opened Wrappers
  import opened TimeWindows
  import opened Tasks
  import opened Agents
  import opened Allocations
  import opened Solutions
  import opened Marsc
  import opened SolverCore
  import opened Bnt
  import Toolkit

  /* ---------- satisfiesOrder ---------- */

  /** The ids of the scheduled tasks, in schedule order. */
  function ScheduleIds(tasks: seq<Task>, a: seq<int>): (r: seq<int>)
    requires InRange(a, |tasks|)
    ensures |r| == |a| && forall i :: 0 <= i < |a| ==> r[i] == tasks[a[i]].id
  {
    seq(|a|, i requires 0 <= i < |a| => tasks[a[i]].id)
  }

  /** The map `m` of satisfiesOrder: each id to the last position where it occurs. */
  function PositionMap(ids: seq<int>): (m: map<int, int>)
    ensures forall x :: x in m <==> x in ids
    ensures forall x :: x in m ==> 0 <= m[x] < |ids| && ids[m[x]] == x
    ensures forall x, j :: x in m && m[x] < j < |ids| ==> ids[j] != x
  {
    if |ids| == 0 then map[]
    else
      var n := |ids| - 1;
      var m := PositionMap(ids[..n]);
      assert forall x :: x in ids <==> x in ids[..n] || x == ids[n] by {
        assert ids == ids[..n] + [ids[n]];
      }
      m[ids[n] := n]
  }

  /**
   * satisfiesOrder: true for a missing or empty order; otherwise every
   * scheduled task with a predecessor must find that predecessor in the
   * schedule, at a position no later than its own.
   */
  predicate SatisfiesOrder(tasks: seq<Task>, order: Option<map<int, int>>, a: seq<int>)
    requires InRange(a, |tasks|)
  {
    order.None? || |order.value| == 0 ||
    var ids := ScheduleIds(tasks, a);
    var m := PositionMap(ids);
    forall i :: 0 <= i < |a| && ids[i] in order.value ==>
      order.value[ids[i]] in m && m[order.value[ids[i]]] <= i
  }

  /** A schedule in which no task id occurs twice. */
  predicate DistinctSchedule(tasks: seq<Task>, a: seq<int>)
    requires InRange(a, |tasks|)
  {
    forall i, j :: 0 <= i < j < |a| ==> tasks[a[i]].id != tasks[a[j]].id
  }

  /** Every scheduled task with a predecessor has it at an earlier or equal position. */
  predicate PredecessorsEarlier(tasks: seq<Task>, o: map<int, int>, a: seq<int>)
    requires InRange(a, |tasks|)
  {
    forall i :: 0 <= i < |a| && tasks[a[i]].id in o ==>
      exists j :: 0 <= j <= i && tasks[a[j]].id == o[tasks[a[i]].id]
  }

  /**
   * For a schedule repeating no task, satisfiesOrder holds exactly when the
   * order is missing or empty, or every scheduled task with a predecessor
   * has that predecessor at an earlier or equal position.
   */
  lemma SatisfiesOrderMeaning(tasks: seq<Task>, order: Option<map<int, int>>, a: seq<int>)
    requires InRange(a, |tasks|) && DistinctSchedule(tasks, a)
    ensures SatisfiesOrder(tasks, order, a) <==>
      order.None? || |order.value| == 0 || PredecessorsEarlier(tasks, order.value, a)
  {
    if order.Some? && |order.value| > 0 {
      if SatisfiesOrder(tasks, order, a) {
        OrderForward(tasks, order.value, a);
      }
      if PredecessorsEarlier(tasks, order.value, a) {
        OrderBackward(tasks, order.value, a);
      }
    }
  }

  lemma OrderForward(tasks: seq<Task>, o: map<int, int>, a: seq<int>)
    requires InRange(a, |tasks|) && |o| > 0 && SatisfiesOrder(tasks, Some(o), a)
    ensures PredecessorsEarlier(tasks, o, a)
  {
    var ids := ScheduleIds(tasks, a);
    var m := PositionMap(ids);
    forall i | 0 <= i < |a| && tasks[a[i]].id in o
      ensures exists j :: 0 <= j <= i && tasks[a[j]].id == o[tasks[a[i]].id]
    {
      assert ids[i] in o;
      var j := m[o[ids[i]]];
      assert tasks[a[j]].id == o[tasks[a[i]].id];
    }
  }

  lemma OrderBackward(tasks: seq<Task>, o: map<int, int>, a: seq<int>)
    requires InRange(a, |tasks|) && DistinctSchedule(tasks, a) && |o| > 0 && PredecessorsEarlier(tasks, o, a)
    ensures SatisfiesOrder(tasks, Some(o), a)
  {
    var ids := ScheduleIds(tasks, a);
    var m := PositionMap(ids);
    forall i | 0 <= i < |a| && ids[i] in o
      ensures o[ids[i]] in m && m[o[ids[i]]] <= i
    {
      assert tasks[a[i]].id in o;
      var j :| 0 <= j <= i && tasks[a[j]].id == o[tasks[a[i]].id];
      OnlyPosition(tasks, a, ids, j);
    }
  }

  /** In a schedule repeating no task, the position map sends the id at j back to j. */
  lemma OnlyPosition(tasks: seq<Task>, a: seq<int>, ids: seq<int>, j: int)
    requires InRange(a, |tasks|) && DistinctSchedule(tasks, a) && ids == ScheduleIds(tasks, a) && 0 <= j < |a|
    ensures ids[j] in PositionMap(ids) && PositionMap(ids)[ids[j]] == j
  {
    var m := PositionMap(ids);
    var q := m[ids[j]];
    assert tasks[a[q]].id == tasks[a[j]].id;
  }

  /** A task whose predecessor is not scheduled fails the check, whatever the rest of the schedule. */
  lemma MissingPredecessorFails(tasks: seq<Task>, order: Option<map<int, int>>, a: seq<int>, i: int)
    requires InRange(a, |tasks|) && order.Some? && 0 <= i < |a|
    requires tasks[a[i]].id in order.value
    requires forall j :: 0 <= j < |a| ==> tasks[a[j]].id != order.value[tasks[a[i]].id]
    ensures !SatisfiesOrder(tasks, order, a)
  {
    var ids := ScheduleIds(tasks, a);
    assert ids[i] in order.value;
    assert order.value[ids[i]] !in ids;
  }

  /**
   * The gate of solve's loop: a permutation is evaluated when there is no
   * order, or the order is not empty and the permutation satisfies it.
   */
  predicate Admits(tasks: seq<Task>, order: Option<map<int, int>>, a: seq<int>)
    requires InRange(a, |tasks|)
  {
    order.None? || (|order.value| > 0 && SatisfiesOrder(tasks, order, a))
  }

  /**
   * Without an order every permutation is evaluated; with an empty order
   * none is (the gate asks for a non-empty order before it checks); with a
   * non-empty one, for a schedule repeating no task, exactly those placing
   * every predecessor no later than its successor are.
   */
  lemma AdmitsMeaning(tasks: seq<Task>, order: Option<map<int, int>>, a: seq<int>)
    requires InRange(a, |tasks|) && DistinctSchedule(tasks, a)
    ensures order.None? ==> Admits(tasks, order, a)
    ensures order == Some(map[]) ==> !Admits(tasks, order, a)
    ensures order.Some? && |order.value| > 0 ==> (Admits(tasks, order, a) <==> PredecessorsEarlier(tasks, order.value, a))
  {
    SatisfiesOrderMeaning(tasks, order, a);
  }

  /** The two loops of satisfiesOrder: build the position map, then check each scheduled task. */
  method CheckOrder(tasks: seq<Task>, order: Option<map<int, int>>, a: array<int>) returns (b: bool)
    requires InRange(a[..], |tasks|)
    ensures b == SatisfiesOrder(tasks, order, a[..])
  {
    if order.None? || |order.value| == 0 {
      return true;
    }
    var m := BuildPositionMap(tasks, a);
    b := PrecedenceLoop(tasks, order.value, a, m);
  }

  /** Every scheduled task among the first i with a predecessor finds it in `m` at a position no later than its own. */
  ghost predicate PrecedesUpTo(o: map<int, int>, ids: seq<int>, m: map<int, int>, i: int)
    requires 0 <= i <= |ids|
  {
    forall k :: 0 <= k < i && ids[k] in o ==> o[ids[k]] in m && m[o[ids[k]]] <= k
  }

  /** The second loop of satisfiesOrder: false at the first task whose predecessor comes later or not at all. */
  method PrecedenceLoop(tasks: seq<Task>, o: map<int, int>, a: array<int>, m: map<int, int>) returns (b: bool)
    requires InRange(a[..], |tasks|)
    ensures b == PrecedesUpTo(o, ScheduleIds(tasks, a[..]), m, a.Length)
  {
    ghost var ids := ScheduleIds(tasks, a[..]);
    for i := 0 to a.Length
      invariant PrecedesUpTo(o, ids, m, i)
    {
      var id := tasks[a[i]].id;
      if id in o {
        var prec := o[id];
        if prec !in m || m[prec] > i {
          assert ids[i] == id;
          return false;
        }
      }
    }
    return true;
  }

  /** The first loop of satisfiesOrder: each scheduled id to the last position where it occurs. */
  method BuildPositionMap(tasks: seq<Task>, a: array<int>) returns (m: map<int, int>)
    requires InRange(a[..], |tasks|)
    ensures m == PositionMap(ScheduleIds(tasks, a[..]))
  {
    ghost var ids := ScheduleIds(tasks, a[..]);
    m := map[];
    for i := 0 to a.Length
      invariant m == PositionMap(ids[..i])
    {
      assert ids[..i + 1][..i] == ids[..i];
      m := m[tasks[a[i]].id := i];
    }
    assert ids[..a.Length] == ids;
  }

  /* ---------- Heap's algorithm ---------- */

  /** The position swapped with position i: 0 for an even i, the counter c[i] for an odd one. */
  function SwapIndex(c: seq<int>, i: int): int
    requires 0 <= i < |c|
  {
    if i % 2 == 0 then 0 else c[i]
  }

  /** ArrayUtils.swap on a sequence. */
  function Swapped(a: seq<int>, j: int, i: int): (r: seq<int>)
    requires 0 <= j < |a| && 0 <= i < |a|
    ensures |r| == |a| && r[i] == a[j] && r[j] == a[i]
    ensures forall k :: 0 <= k < |a| && k != i && k != j ==> r[k] == a[k]
  {
    a[j := a[i]][i := a[j]]
  }

  /** A swap keeps every entry in range. */
  lemma SwapInRange(a: seq<int>, j: int, i: int, n: int)
    requires 0 <= j < |a| && 0 <= i < |a| && InRange(a, n)
    ensures InRange(Swapped(a, j, i), n)
  {
    var r := Swapped(a, j, i);
    forall k | 0 <= k < |r|
      ensures 0 <= r[k] < n
    {
      if k != i && k != j {
        assert r[k] == a[k];
      }
    }
  }

  /** The swap of one step of Heap's algorithm, in place: a[SwapIndex(c, i)] and a[i] trade places. */
  method SwapEntries(a: array<int>, c: array<int>, i: int)
    requires a != c && a.Length == c.Length && Counters(c[..], i) && i < c.Length
    modifies a
    ensures a[..] == Swapped(old(a[..]), SwapIndex(c[..], i), i)
    ensures multiset(a[..]) == multiset(old(a[..]))
  {
    var j := if i % 2 == 0 then 0 else c[i];
    ghost var before := a[..];
    a[j], a[i] := a[i], a[j];
    assert a[..] == Swapped(before, j, i);
    SwapPermutes(before, j, i);
  }

  /** A swap keeps the same entries: a schedule stays a permutation of the one it started from. */
  lemma SwapPermutes(a: seq<int>, j: int, i: int)
    requires 0 <= j < |a| && 0 <= i < |a|
    ensures multiset(Swapped(a, j, i)) == multiset(a)
  {
    var b := a[j := a[i]];
    assert multiset(b) == multiset(a) - multiset{a[j]} + multiset{a[i]};
    assert b[i] == (if i == j then a[i] else a[i]);
    assert multiset(b[i := a[j]]) == multiset(b) - multiset{b[i]} + multiset{a[j]};
  }

  /** n! */
  function Fact(n: nat): (r: nat)
    ensures r >= 1
  {
    if n == 0 then 1 else n * Fact(n - 1)
  }

  /** The counters from position lo upwards, read as digits with weight k! at position k. */
  function Digits(c: seq<int>, lo: nat): int
    decreases |c| - lo
  {
    if lo >= |c| then 0 else c[lo] * Fact(lo) + Digits(c, lo + 1)
  }

  /**
   * The progress of Heap's loop at position i: the digits from i up, plus
   * the carry pending below i. Each swap adds one; each counter reset at i
   * keeps it and moves i up.
   */
  function Rank(c: seq<int>, i: nat): int {
    Digits(c, i) + Fact(i) - 1
  }

  /** The counter array of the loop: c[k] between 0 and k, and all zero below the current position. */
  predicate Counters(c: seq<int>, i: int) {
    && 0 <= i <= |c|
    && (forall k :: 0 <= k < |c| ==> 0 <= c[k] <= k)
    && (forall k :: 0 <= k < i ==> c[k] == 0)
  }

  lemma {:induction false} DigitsBound(c: seq<int>, lo: nat)
    requires forall k :: 0 <= k < |c| ==> 0 <= c[k] <= k
    requires lo <= |c|
    ensures 0 <= Digits(c, lo) <= Fact(|c|) - Fact(lo)
    decreases |c| - lo
  {
    if lo < |c| {
      DigitsBound(c, lo + 1);
      assert c[lo] * Fact(lo) <= lo * Fact(lo) by {
        MulMono(c[lo], lo, Fact(lo));
      }
      assert Fact(lo + 1) == (lo + 1) * Fact(lo);
      assert c[lo] * Fact(lo) >= 0 by {
        MulMono(0, c[lo], Fact(lo));
      }
    }
  }

  lemma MulMono(x: int, y: int, f: nat)
    requires x <= y
    ensures x * f <= y * f
  {
  }

  /** Changing a counter at position i leaves the digits above i alone. */
  lemma {:induction false} DigitsFrame(c: seq<int>, d: seq<int>, lo: nat)
    requires |c| == |d| && forall k :: lo <= k < |c| ==> c[k] == d[k]
    ensures Digits(c, lo) == Digits(d, lo)
    decreases |c| - lo
  {
    if lo < |c| {
      DigitsFrame(c, d, lo + 1);
    }
  }

  /** Zero counters below lo add nothing. */
  lemma {:induction false} DigitsZeroBelow(c: seq<int>, lo: nat, hi: nat)
    requires lo <= hi <= |c| && forall k :: lo <= k < hi ==> c[k] == 0
    ensures Digits(c, lo) == Digits(c, hi)
    decreases hi - lo
  {
    if lo < hi {
      DigitsZeroBelow(c, lo + 1, hi);
    }
  }

  /** The rank stays below n!, so the loop cannot run forever. */
  lemma RankBound(c: seq<int>, i: nat)
    requires Counters(c, i)
    ensures 0 <= Rank(c, i) < Fact(|c|)
  {
    DigitsBound(c, i);
  }

  /** A swap step: counter i goes up by one, the position returns to 0, and the rank goes up by one. */
  lemma RankAdvances(c: seq<int>, i: nat)
    requires Counters(c, i) && i < |c| && c[i] < i
    ensures Counters(c[i := c[i] + 1], 0)
    ensures Rank(c[i := c[i] + 1], 0) == Rank(c, i) + 1
  {
    var d := c[i := c[i] + 1];
    DigitsZeroBelow(d, 0, i);
    DigitsFrame(c, d, i + 1);
    var x, f := c[i], Fact(i);
    assert Digits(d, i) == (x + 1) * f + Digits(d, i + 1);
    assert Digits(c, i) == x * f + Digits(c, i + 1);
    MulSucc(x, f);
  }

  lemma MulSucc(x: int, f: int)
    ensures (x + 1) * f == x * f + f
  {
  }

  /** A reset step: counter i (at its top value i) goes back to 0 and the position moves up, at the same rank. */
  lemma RankCarries(c: seq<int>, i: nat)
    requires Counters(c, i) && i < |c| && c[i] >= i
    ensures Counters(c[i := 0], i + 1)
    ensures Rank(c[i := 0], i + 1) == Rank(c, i)
  {
    var d := c[i := 0];
    DigitsFrame(c, d, i + 1);
    assert c[i] == i;
    assert Fact(i + 1) == (i + 1) * Fact(i) == i * Fact(i) + Fact(i);
  }

  /* ---------- updateStoppingCondition ---------- */

  /** Long.MAX_VALUE. */
  const LONG_MAX: int := 0x7fff_ffff_ffff_ffff

  /** The binomial coefficient C(n, k), by Pascal's rule. */
  function Choose(n: nat, k: nat): nat {
    if k == 0 then 1 else if n == 0 then 0 else Choose(n - 1, k - 1) + Choose(n - 1, k)
  }

  /** C(n, k) is at least 1 for k <= n, and choosing one of n gives n. */
  lemma {:induction false} ChooseFacts(n: nat, k: nat)
    requires k <= n
    ensures Choose(n, k) >= 1
    ensures k == 1 ==> Choose(n, k) == n
    ensures k == n ==> Choose(n, k) == 1
  {
    if k > 0 && n > 0 {
      ChooseFacts(n - 1, k - 1);
      if k <= n - 1 {
        ChooseFacts(n - 1, k);
      } else {
        ChooseBeyond(n - 1, k);
      }
    }
  }

  /** C(n, k) is 0 for k > n. */
  lemma {:induction false} ChooseBeyond(n: nat, k: nat)
    requires k > n
    ensures Choose(n, k) == 0
  {
    if n > 0 {
      ChooseBeyond(n - 1, k - 1);
      ChooseBeyond(n - 1, k);
    }
  }

  /** Whether a schedule that completed k + 1 tasks updates the stopping condition. */
  predicate StopApplies(k: int, incumbent: Option<Solution>) {
    k >= 0 && incumbent.Some? && |incumbent.value.tasks| > 0 && |incumbent.value.tasks| - 1 <= k
  }

  /**
   * The lazy initialisation of a count of permutations left: -1 becomes
   * C(n, k + 1) when that fits in a long, and stays -1 when it does not;
   * any other count is kept.
   */
  function Initialised(left: int, n: int, k: int): int
    requires 0 <= k
  {
    if left == -1 && n > 0 && k + 1 <= n && Choose(n, k + 1) <= LONG_MAX then Choose(n, k + 1) else left
  }

  /**
   * A fresh count is C(n, k + 1), at least 1, and the search then stops
   * once the decremented count is no more than the skipped permutations;
   * when C(n, k + 1) overflows the count stays -1, so its first decrement
   * gives -2 and stops the search at once.
   */
  lemma InitialisedMeaning(n: int, k: int, skipped: int)
    requires 0 <= k < n && skipped >= 0
    ensures Choose(n, k + 1) <= LONG_MAX ==> Initialised(-1, n, k) == Choose(n, k + 1) >= 1
    ensures Choose(n, k + 1) > LONG_MAX ==> Initialised(-1, n, k) - 1 == -2 && Initialised(-1, n, k) - 1 - skipped <= 0
    ensures forall left :: left != -1 ==> Initialised(left, n, k) == left
  {
    ChooseFacts(n, k + 1);
  }

  /* ---------- updateSolution ---------- */

  /** Whether a new evaluation replaces the incumbent: when there is none, or it scores strictly higher. */
  predicate Replaces(incumbent: Option<Solution>, newScore: real) {
    incumbent.None? || newScore > incumbent.value.score
  }

  /** The incumbent after an evaluation scoring newScore: the better of the two, the old one on a tie. */
  function Elect(incumbent: Option<Solution>, s: Solution, newScore: real): (r: Option<Solution>)
    ensures r.Some? && (r == Some(s) || r == incumbent)
    ensures incumbent.Some? && s.score == newScore ==>
      r.value.score >= incumbent.value.score && r.value.score >= newScore
    ensures incumbent.Some? && newScore <= incumbent.value.score ==> r == incumbent
  {
    if Replaces(incumbent, newScore) then Some(s) else incumbent
  }

  /**
   * The anytime trace after a new incumbent scoring `score` at `elapsed`
   * milliseconds: a point is added only when the score is above the last
   * one, and an elapsed time of 0 is recorded as 1.
   */
  function Record(times: seq<int>, scores: seq<real>, elapsed: nat, score: real): (r: (seq<int>, seq<real>))
  {
    if |scores| == 0 || scores[|scores| - 1] < score then
      (times + [if elapsed == 0 then 1 else elapsed], scores + [score])
    else (times, scores)
  }

  /** The trace as the constructor starts it and updateSolution keeps it: scores strictly increase from (0, 0). */
  predicate TraceOk(times: seq<int>, scores: seq<real>) {
    && |times| == |scores| >= 1
    && times[0] == 0 && scores[0] == 0.0
    && (forall k :: 1 <= k < |times| ==> times[k] >= 1)
    && (forall k, l :: 0 <= k < l < |scores| ==> scores[k] < scores[l])
  }

  /** The trace update of updateSolution: a point is appended only when the score is above the last one. */
  method AppendPoint(times: seq<int>, scores: seq<real>, elapsed: nat, score: real) returns (times': seq<int>, scores': seq<real>)
    ensures (times', scores') == Record(times, scores, elapsed, score)
  {
    times', scores' := times, scores;
    if |scores| == 0 || scores[|scores| - 1] < score {
      times' := times + [if elapsed == 0 then 1 else elapsed];
      scores' := scores + [score];
    }
  }

  /**
   * Recording keeps the trace well formed; it grows by one point exactly
   * when the score beats the last one, and its last score is then the new
   * score.
   */
  lemma RecordKeepsTrace(times: seq<int>, scores: seq<real>, elapsed: nat, score: real)
    requires TraceOk(times, scores)
    ensures var r := Record(times, scores, elapsed, score);
      && TraceOk(r.0, r.1)
      && (score > scores[|scores| - 1] <==> |r.1| == |scores| + 1)
      && (score > scores[|scores| - 1] ==> r.1[|r.1| - 1] == score && r.0[|r.0| - 1] >= 1)
      && (score <= scores[|scores| - 1] ==> r == (times, scores))
  {
  }

  /* ---------- getSolutionForSchedule ---------- */

  /** What evaluating a schedule builds: the agents as it leaves them, the completed tasks, the allocations and the summed score. */
  datatype Evaluation = Evaluation(
    agents: seq<Agent>,
    completed: set<int>,
    allocations: seq<CoalitionAllocation>,
    score: real)

  /**
   * The j-th task of the schedule: with a one-task solution, its task,
   * allocations and stored score are added and the agents are advanced
   * from the incumbent's last allocation; without one only arrival times
   * change.
   */
  function Visit(p: Problem, tasks: seq<Task>, a: seq<int>, incumbent: Option<Solution>, e: Evaluation, j: nat): (r: Evaluation)
    requires AllReady(p, tasks) && InRange(a, |tasks|) && j < |a|
  {
    var b := BestSingleton(p, tasks[a[j]], e.agents);
    if b.0.None? then e.(agents := b.1)
    else
      Evaluation(
        UpdateAgentStatusOf(b.1, incumbent),
        e.completed + b.0.value.tasks,
        e.allocations + b.0.value.coalitionAllocations,
        e.score + b.0.value.score)
  }

  /** The loop over the schedule from position j on. */
  function EvaluateFrom(p: Problem, tasks: seq<Task>, a: seq<int>, incumbent: Option<Solution>, e: Evaluation, j: nat)
    : (r: Evaluation)
    requires AllReady(p, tasks) && InRange(a, |tasks|) && j <= |a|
    decreases |a| - j
  {
    if j == |a| then e else EvaluateFrom(p, tasks, a, incumbent, Visit(p, tasks, a, incumbent, e, j), j + 1)
  }

  /** The evaluation of a whole schedule from the given agents. */
  function Evaluate(p: Problem, tasks: seq<Task>, a: seq<int>, agents: seq<Agent>, incumbent: Option<Solution>)
    : (r: Evaluation)
    requires AllReady(p, tasks) && InRange(a, |tasks|)
  {
    EvaluateFrom(p, tasks, a, incumbent, Evaluation(agents, {}, [], 0.0), 0)
  }

  /** The ids of the tasks a schedule names. */
  function ScheduledIds(tasks: seq<Task>, a: seq<int>): (r: set<int>)
    requires InRange(a, |tasks|)
  {
    set j | 0 <= j < |a| :: tasks[a[j]].id
  }

  /**
   * What an evaluation keeps true: completed tasks are scheduled tasks;
   * every allocation is for a completed task, can be scored and (for a
   * consistent window) is valid and ends by the hard deadline; the summed
   * score is the score of the allocations.
   */
  ghost predicate Sound(tasks: seq<Task>, a: seq<int>, e: Evaluation)
    requires InRange(a, |tasks|)
  {
    && e.completed <= ScheduledIds(tasks, a)
    && (forall m :: 0 <= m < |e.allocations| ==> e.allocations[m].task.id in e.completed)
    && AllScorable(e.allocations) && e.score == ScoreOf(e.allocations)
    && (forall m :: 0 <= m < |e.allocations| ==>
          var ca := e.allocations[m];
          TimeWindows.Valid(ca.task.demand.timeWindow) ==>
            Allocations.Valid(ca) && ca.endTime <= ca.task.demand.timeWindow.hardLatestTime)
  }

  /**
   * What an evaluation does to the agents: each keeps its identity and
   * status; its end time and location are either unchanged or those of the
   * incumbent's last allocation, whose coalition it belongs to.
   */
  ghost predicate MovedFrom(a: seq<Agent>, b: seq<Agent>, incumbent: Option<Solution>) {
    && |a| == |b|
    && forall k :: 0 <= k < |a| ==>
         && b[k] == a[k].(arrivalTime := b[k].arrivalTime, endTime := b[k].endTime, location := b[k].location)
         && ((b[k].endTime == a[k].endTime && b[k].location == a[k].location) ||
             (incumbent.Some? && |incumbent.value.coalitionAllocations| > 0 &&
              var last := incumbent.value.coalitionAllocations[|incumbent.value.coalitionAllocations| - 1];
              b[k].id in IdSet(last.coalition) && b[k].endTime == last.endTime && b[k].location == last.location))
  }

  lemma VisitSound(p: Problem, tasks: seq<Task>, a: seq<int>, incumbent: Option<Solution>, e: Evaluation, j: nat)
    requires AllReady(p, tasks) && InRange(a, |tasks|) && j < |a|
    requires Sound(tasks, a, e)
    ensures Sound(tasks, a, Visit(p, tasks, a, incumbent, e, j))
  {
    var v := tasks[a[j]];
    var b := BestSingleton(p, v, e.agents);
    if b.0.Some? {
      SingletonShape(p, v, e.agents);
      var s := b.0.value;
      var r := Visit(p, tasks, a, incumbent, e, j);
      assert v.id in ScheduledIds(tasks, a);
      ScoreOfAppend(e.allocations, s.coalitionAllocations);
      forall m | 0 <= m < |r.allocations|
        ensures r.allocations[m].task.id in r.completed
        ensures TimeWindows.Valid(r.allocations[m].task.demand.timeWindow) ==>
          Allocations.Valid(r.allocations[m]) && r.allocations[m].endTime <= r.allocations[m].task.demand.timeWindow.hardLatestTime
      {
        if m >= |e.allocations| {
          assert r.allocations[m] == s.coalitionAllocations[m - |e.allocations|];
        }
      }
    }
  }

  lemma VisitMoves(p: Problem, tasks: seq<Task>, a: seq<int>, incumbent: Option<Solution>, agents0: seq<Agent>, e: Evaluation, j: nat)
    requires AllReady(p, tasks) && InRange(a, |tasks|) && j < |a|
    requires MovedFrom(agents0, e.agents, incumbent)
    ensures MovedFrom(agents0, Visit(p, tasks, a, incumbent, e, j).agents, incumbent)
  {
    var v := tasks[a[j]];
    var b := BestSingleton(p, v, e.agents);
    BestSingletonIsBest(p, v, e.agents);
    UpdateAgentStatusEffect(b.1, incumbent);
  }

  lemma {:induction false} EvaluateFromSound(p: Problem, tasks: seq<Task>, a: seq<int>, incumbent: Option<Solution>, agents0: seq<Agent>, e: Evaluation, j: nat)
    requires AllReady(p, tasks) && InRange(a, |tasks|) && j <= |a|
    requires Sound(tasks, a, e) && MovedFrom(agents0, e.agents, incumbent)
    ensures var r := EvaluateFrom(p, tasks, a, incumbent, e, j);
      Sound(tasks, a, r) && MovedFrom(agents0, r.agents, incumbent)
    decreases |a| - j
  {
    if j < |a| {
      VisitSound(p, tasks, a, incumbent, e, j);
      VisitMoves(p, tasks, a, incumbent, agents0, e, j);
      EvaluateFromSound(p, tasks, a, incumbent, agents0, Visit(p, tasks, a, incumbent, e, j), j + 1);
    }
  }

  /**
   * An evaluation completes only scheduled tasks, at most one per distinct
   * task; its summed score is the score of its allocations, which are
   * valid and for completed tasks. Its agents move only to the incumbent's
   * last allocation, so with no incumbent only arrival times change.
   */
  lemma EvaluateSound(p: Problem, tasks: seq<Task>, a: seq<int>, agents: seq<Agent>, incumbent: Option<Solution>)
    requires AllReady(p, tasks) && InRange(a, |tasks|)
    ensures var r := Evaluate(p, tasks, a, agents, incumbent);
      && Sound(tasks, a, r)
      && MovedFrom(agents, r.agents, incumbent)
      && (incumbent.None? ==> SameButArrival(agents, r.agents))
  {
    EvaluateFromSound(p, tasks, a, incumbent, agents, Evaluation(agents, {}, [], 0.0), 0);
  }

  /** With task ids equal to positions, an evaluation completes at most as many tasks as there are. */
  lemma CompletedBound(tasks: seq<Task>, a: seq<int>, completed: set<int>)
    requires InRange(a, |tasks|) && completed <= ScheduledIds(tasks, a)
    requires forall k :: 0 <= k < |tasks| ==> tasks[k].id == k
    ensures |completed| <= |tasks|
  {
    assert completed <= Below(|tasks|);
    SubsetCard(completed, Below(|tasks|));
  }

  /* ---------- the loops of getSolutionForSchedule and updateAgentStatus ---------- */

  /** Moving the agent with a given id touches only the one agent carrying it. */
  lemma MoveOne(agents: seq<Agent>, q: int, endTime: int, location: Locations.Location)
    requires DistinctIds(agents) && 0 <= q < |agents|
    ensures MoveTo(agents, {agents[q].id}, endTime, location) == agents[q := agents[q].(endTime := endTime, location := location)]
  {
  }

  /**
   * updateAgentStatus(Solution, Agent[]): the members of the last
   * allocation's coalition are looked up by id in a map over the agents and
   * moved to its location and end time.
   */
  method UpdateAgentStatusById(s: Option<Solution>, agents: seq<Agent>) returns (updated: seq<Agent>)
    requires DistinctIds(agents)
    ensures updated == UpdateAgentStatusOf(agents, s)
  {
    updated := agents;
    if s.None? || |s.value.coalitionAllocations| == 0 {
      return;
    }
    var last := s.value.coalitionAllocations[|s.value.coalitionAllocations| - 1];
    var m: map<int, int> := map[];
    for k := 0 to |agents|
      invariant forall x :: x in m ==> 0 <= m[x] < |agents| && agents[m[x]].id == x
      invariant forall q :: 0 <= q < k ==> agents[q].id in m
    {
      m := m[agents[k].id := k];
    }
    for k := 0 to |last.coalition|
      invariant updated == MoveTo(agents, IdSet(last.coalition[..k]), last.endTime, last.location)
    {
      var x := last.coalition[k].id;
      MoveToAgain(agents, IdSet(last.coalition[..k]), x, last.endTime, last.location);
      assert IdSet(last.coalition[..k + 1]) == IdSet(last.coalition[..k]) + {x} by {
        assert last.coalition[..k + 1] == last.coalition[..k] + [last.coalition[k]];
      }
      if x in m {
        var q := m[x];
        assert updated[q].id == x;
        MoveOne(updated, q, last.endTime, last.location);
        updated := updated[q := updated[q].(endTime := last.endTime, location := last.location)];
      } else {
        assert MoveTo(updated, {x}, last.endTime, last.location) == updated;
      }
    }
    assert last.coalition[..|last.coalition|] == last.coalition;
  }

  /** Moving agents keeps their ids. */
  lemma UpdateKeepsIds(agents: seq<Agent>, s: Option<Solution>)
    requires DistinctIds(agents)
    ensures DistinctIds(UpdateAgentStatusOf(agents, s))
  {
    UpdateAgentStatusEffect(agents, s);
  }

  /** `Collections.addAll(l, ...)` for a list of allocations. */
  method AppendAll(l: seq<CoalitionAllocation>, cas: seq<CoalitionAllocation>) returns (r: seq<CoalitionAllocation>)
    ensures r == l + cas
  {
    r := l;
    for k := 0 to |cas|
      invariant r == l + cas[..k]
    {
      r := r + [cas[k]];
    }
    assert cas[..|cas|] == cas;
  }

  /** The body of getSolutionForSchedule's loop for the j-th scheduled task. */
  method VisitTask(p: Problem, tasks: seq<Task>, a: seq<int>, incumbent: Option<Solution>, e: Evaluation, j: nat)
    returns (next: Evaluation)
    requires AllReady(p, tasks) && InRange(a, |tasks|) && j < |a| && DistinctIds(e.agents)
    ensures next == Visit(p, tasks, a, incumbent, e, j)
    ensures DistinctIds(next.agents)
  {
    var v := tasks[a[j]];
    var current, updated := GetSingletonSolution(p, v, e.agents);
    SingletonKeepsIds(p, v, e.agents);
    if current.None? {
      return e.(agents := updated);
    }
    var s := current.value;
    var moved := UpdateAgentStatusById(incumbent, updated);
    UpdateKeepsIds(updated, incumbent);
    var score, _ := GetScore(s, false);
    var l := AppendAll(e.allocations, s.coalitionAllocations);
    next := Evaluation(moved, e.completed + s.tasks, l, e.score + score);
  }

  lemma SingletonKeepsIds(p: Problem, v: Task, agents: seq<Agent>)
    requires Bnt.Ready(p, v) && DistinctIds(agents)
    ensures DistinctIds(BestSingleton(p, v, agents).1)
  {
    BestSingletonIsBest(p, v, agents);
  }

  /** The loop of getSolutionForSchedule over the schedule. */
  method EvaluateSchedule(p: Problem, tasks: seq<Task>, a: seq<int>, agents: seq<Agent>, incumbent: Option<Solution>)
    returns (e: Evaluation)
    requires AllReady(p, tasks) && InRange(a, |tasks|) && DistinctIds(agents)
    ensures e == Evaluate(p, tasks, a, agents, incumbent)
  {
    e := Evaluation(agents, {}, [], 0.0);
    for j := 0 to |a|
      invariant DistinctIds(e.agents)
      invariant EvaluateFrom(p, tasks, a, incumbent, e, j) == Evaluate(p, tasks, a, agents, incumbent)
    {
      e := VisitTask(p, tasks, a, incumbent, e, j);
    }
  }

  /** The schedule solve starts from: the task set's ids in comparator order, padded with 0. */
  function InitialSchedule(tasks: seq<Task>, order: Option<map<int, int>>): (r: seq<int>)
    ensures |r| == |tasks|
  {
    var taskSet := TaskOrder(tasks, order);
    TaskOrderPositions(tasks, order);
    TaskSetBound(tasks, order);
    seq(|tasks|, k requires 0 <= k < |tasks| => if k < |taskSet| then tasks[taskSet[k]].id else 0)
  }

  /** The task set holds each task at most once, so it is no longer than the task array. */
  lemma TaskSetBound(tasks: seq<Task>, order: Option<map<int, int>>)
    ensures |TaskOrder(tasks, order)| <= |tasks|
  {
    var taskSet := TaskOrder(tasks, order);
    TaskOrderPositions(tasks, order);
    assert forall j :: 0 <= j < |taskSet| ==> taskSet[j] in Below(|tasks|);
    DistinctCard(taskSet, Below(|tasks|));
  }

  /** A sequence of distinct members of a set is no longer than the set. */
  lemma {:induction false} DistinctCard(s: seq<int>, b: set<int>)
    requires forall i, j :: 0 <= i < j < |s| ==> s[i] != s[j]
    requires forall j :: 0 <= j < |s| ==> s[j] in b
    ensures |s| <= |b|
  {
    if |s| > 0 {
      var n := |s| - 1;
      DistinctCard(s[..n], b - {s[n]});
    }
  }

  /**
   * With task ids equal to positions, the initial schedule names each task
   * of the task set once, in the task set's order, followed by zeros.
   */
  lemma InitialScheduleShape(tasks: seq<Task>, order: Option<map<int, int>>)
    requires forall k :: 0 <= k < |tasks| ==> tasks[k].id == k
    ensures var r := InitialSchedule(tasks, order);
      var taskSet := TaskOrder(tasks, order);
      && InRange(r, |tasks|)
      && |taskSet| <= |tasks|
      && (forall k :: 0 <= k < |taskSet| ==> r[k] == taskSet[k])
      && (forall k :: |taskSet| <= k < |tasks| ==> r[k] == 0)
      && (forall i, j :: 0 <= i < j < |taskSet| ==> r[i] != r[j])
  {
    TaskOrderPositions(tasks, order);
    TaskSetBound(tasks, order);
  }

  /**
   * The loop of solve over the task set: each element's id goes into the
   * schedule and its count of permutations left is marked -1 (not yet
   * computed); the rest of both arrays keeps its zeros.
   */
  method FillSchedule(tasks: seq<Task>, order: Option<map<int, int>>, a: array<int>, left: array<int>)
    requires a.Length == |tasks| == left.Length && a != left
    requires forall q :: 0 <= q < a.Length ==> a[q] == 0 && left[q] == 0
    modifies a, left
    ensures a[..] == InitialSchedule(tasks, order)
    ensures forall q :: 0 <= q < left.Length ==> left[q] == if q < |TaskOrder(tasks, order)| then -1 else 0
  {
    var taskSet := TaskOrder(tasks, order);
    TaskOrderPositions(tasks, order);
    TaskSetBound(tasks, order);
    ghost var a0 := InitialSchedule(tasks, order);
    for k := 0 to |taskSet|
      invariant forall q :: 0 <= q < k ==> a[q] == a0[q] && left[q] == -1
      invariant forall q :: k <= q < a.Length ==> a[q] == 0 && left[q] == 0
    {
      left[k] := -1;
      a[k] := tasks[taskSet[k]].id;
    }
    assert a[..] == a0;
  }

  /**
   * The arrays solve sets up: the counts of permutations left, filled with
   * FillSchedule together with the initial schedule, and Heap's counters,
   * all zero.
   */
  method Prepare(tasks: seq<Task>, order: Option<map<int, int>>) returns (a: array<int>, c: array<int>, left: array<int>)
    requires forall k :: 0 <= k < |tasks| ==> tasks[k].id == k
    ensures fresh(a) && fresh(c) && fresh(left) && a != c && a != left && c != left
    ensures a.Length == c.Length == left.Length == |tasks|
    ensures a[..] == InitialSchedule(tasks, order) && InRange(a[..], |tasks|)
    ensures forall q :: 0 <= q < left.Length ==> left[q] == if q < |TaskOrder(tasks, order)| then -1 else 0
    ensures Counters(c[..], 0) && Rank(c[..], 0) == 0
  {
    var n := |tasks|;
    left := new int[n](_ => 0);
    c := new int[n](_ => 0);
    a := new int[n](_ => 0);
    InitialScheduleShape(tasks, order);
    FillSchedule(tasks, order, a, left);
    DigitsZeroBelow(c[..], 0, n);
  }

  /** The facts the search keeps about the schedules evaluated since position `prior` (see AntSolver.Searching). */
  ghost predicate SearchOk(tasks: seq<Task>, order: Option<map<int, int>>, evaluated: seq<seq<int>>, scores: seq<real>,
                           investigated: int, skipped: int, solution: Option<Solution>, a0: seq<int>, prior: nat, inv0: int)
  {
    && |a0| == |tasks| && |evaluated| == |scores|
    && |evaluated| > prior && evaluated[prior] == a0
    && (forall x :: prior <= x < |evaluated| ==>
          |evaluated[x]| == |tasks| && InRange(evaluated[x], |tasks|) && multiset(evaluated[x]) == multiset(a0))
    && (forall x :: prior < x < |evaluated| ==> Admits(tasks, order, evaluated[x]))
    && investigated == inv0 + |evaluated| - prior - 1 && skipped >= 0
    && solution.Some?
    && (forall x :: prior <= x < |scores| ==> solution.value.score >= scores[x])
  }

  /** An admitted permutation of the initial schedule, evaluated and offered to the incumbent, keeps the facts. */
  lemma SearchOkAdmitted(tasks: seq<Task>, order: Option<map<int, int>>, evaluated: seq<seq<int>>, scores: seq<real>,
                         investigated: int, skipped: int, solution: Option<Solution>, a0: seq<int>, prior: nat, inv0: int,
                         a: seq<int>, score: real, solution': Option<Solution>)
    requires SearchOk(tasks, order, evaluated, scores, investigated, skipped, solution, a0, prior, inv0)
    requires |a| == |tasks| && InRange(a, |tasks|) && multiset(a) == multiset(a0) && Admits(tasks, order, a)
    requires solution'.Some? && solution'.value.score >= score && solution'.value.score >= solution.value.score
    ensures SearchOk(tasks, order, evaluated + [a], scores + [score], investigated + 1, skipped, solution', a0, prior, inv0)
  {
    var e := evaluated + [a];
    assert forall x :: prior <= x < |evaluated| ==> e[x] == evaluated[x];
  }

  /** A skipped permutation leaves the record and the incumbent alone. */
  lemma SearchOkSkipped(tasks: seq<Task>, order: Option<map<int, int>>, evaluated: seq<seq<int>>, scores: seq<real>,
                        investigated: int, skipped: int, solution: Option<Solution>, a0: seq<int>, prior: nat, inv0: int)
    requires SearchOk(tasks, order, evaluated, scores, investigated, skipped, solution, a0, prior, inv0)
    ensures SearchOk(tasks, order, evaluated, scores, investigated, skipped + 1, solution, a0, prior, inv0)
  {
  }

  /** The first evaluated schedule starts the record the search keeps. */
  lemma SearchOkStarted(tasks: seq<Task>, order: Option<map<int, int>>, evaluated: seq<seq<int>>, scores: seq<real>,
                        investigated: int, solution: Option<Solution>, a0: seq<int>, prior: nat)
    requires |a0| == |tasks| && InRange(a0, |tasks|)
    requires |evaluated| == |scores| == prior + 1 && evaluated[prior] == a0
    requires solution.Some? && solution.value.score >= scores[prior]
    ensures SearchOk(tasks, order, evaluated, scores, investigated, 0, solution, a0, prior, investigated)
  {
  }

  /* ---------- the engine ---------- */

  /**
   * The ANT engine: BNT's state plus the search counters, the lazily
   * filled counts of permutations left, the incumbent and its anytime
   * trace. `stopwatch`, when present, gives the elapsed milliseconds at its
   * successive readings; `readings` counts the readings taken.
   */
  class AntSolver {
    const problem: Problem
    const timeoutMs: int
    const maxPermutations: int
    const maxConsecutiveInvestigatedLimit: int
    const stopwatch: Option<nat -> nat>
    var tasks: seq<Task>
    var order: Option<map<int, int>>
    var agents: seq<Agent>
    var solution: Option<Solution>
    var stoppingCondition: bool
    var skipped: int
    var investigated: int
    var maxConsecutiveInvestigated: int
    var permutationsLeft: array<int>
    var timeout: bool
    var anytimeSolutionTimes: seq<int>
    var anytimeSolutionScores: seq<real>
    var lastSolutionTime: int
    var readings: nat
    /** The schedules evaluated so far, and their summed scores. */
    ghost var evaluated: seq<seq<int>>
    ghost var evaluatedScores: seq<real>

    /** The solver's tasks stay the problem's; the trace is well formed; the counters are not negative. */
    ghost predicate Valid()
      reads this
    {
      && tasks == problem.tasks
      && TraceOk(anytimeSolutionTimes, anytimeSolutionScores)
      && skipped >= 0 && investigated >= 0
      && |evaluated| == |evaluatedScores|
    }

    /** ANT(problem): BNT's start plus a trace holding the point (0, 0). */
    constructor (problem: Problem, stopwatch: Option<nat -> nat>)
      ensures Valid()
      ensures this.problem == problem && this.stopwatch == stopwatch
      ensures tasks == problem.tasks && agents == problem.agents && order == problem.order
      ensures timeoutMs == 0 && maxPermutations == 0 && maxConsecutiveInvestigatedLimit == 0
      ensures solution.None? && !stoppingCondition && !timeout
      ensures skipped == 0 && investigated == 0 && maxConsecutiveInvestigated == 0
      ensures anytimeSolutionTimes == [0] && anytimeSolutionScores == [0.0] && lastSolutionTime == 0 && readings == 0
      ensures permutationsLeft.Length == 0 && evaluated == [] && evaluatedScores == []
    {
      this.problem := problem;
      this.stopwatch := stopwatch;
      timeoutMs, maxPermutations, maxConsecutiveInvestigatedLimit := 0, 0, 0;
      tasks, agents, order := problem.tasks, problem.agents, problem.order;
      solution := None;
      stoppingCondition, timeout := false, false;
      skipped, investigated, maxConsecutiveInvestigated := 0, 0, 0;
      permutationsLeft := new int[0];
      anytimeSolutionTimes, anytimeSolutionScores := [0], [0.0];
      lastSolutionTime, readings := 0, 0;
      evaluated, evaluatedScores := [], [];
    }

    /** ANT(problem, timeoutMs, maxPermutations, maxConsecutiveInvestigatedLimit, verbose), without the printing. */
    constructor WithLimits(problem: Problem, timeoutMs: int, maxPermutations: int, maxConsecutiveInvestigatedLimit: int,
                           stopwatch: Option<nat -> nat>)
      ensures Valid()
      ensures this.problem == problem && this.stopwatch == stopwatch
      ensures tasks == problem.tasks && agents == problem.agents && order == problem.order
      ensures this.timeoutMs == timeoutMs && this.maxPermutations == maxPermutations
      ensures this.maxConsecutiveInvestigatedLimit == maxConsecutiveInvestigatedLimit
      ensures solution.None? && !stoppingCondition && !timeout
      ensures skipped == 0 && investigated == 0 && maxConsecutiveInvestigated == 0
      ensures anytimeSolutionTimes == [0] && anytimeSolutionScores == [0.0] && lastSolutionTime == 0 && readings == 0
      ensures permutationsLeft.Length == 0 && evaluated == [] && evaluatedScores == []
    {
      this.problem := problem;
      this.stopwatch := stopwatch;
      this.timeoutMs, this.maxPermutations, this.maxConsecutiveInvestigatedLimit :=
        timeoutMs, maxPermutations, maxConsecutiveInvestigatedLimit;
      tasks, agents, order := problem.tasks, problem.agents, problem.order;
      solution := None;
      stoppingCondition, timeout := false, false;
      skipped, investigated, maxConsecutiveInvestigated := 0, 0, 0;
      permutationsLeft := new int[0];
      anytimeSolutionTimes, anytimeSolutionScores := [0], [0.0];
      lastSolutionTime, readings := 0, 0;
      evaluated, evaluatedScores := [], [];
    }

    /**
     * What updateSolution does: the incumbent becomes the better of the old
     * one and the new solution; a replacement with a stopwatch reads it,
     * records a trace point and resets the consecutive counter; with a
     * positive timeout the stopwatch is read again and a reading above the
     * timeout sets the timeout flag.
     */
    twostate predicate SolutionUpdated(s: Solution, newScore: real)
      reads this
    {
      var recorded := Replaces(old(solution), newScore) && stopwatch.Some?;
      var clock := old(readings) + (if recorded then 1 else 0);
      && solution == Elect(old(solution), s, newScore)
      && (recorded ==>
            && lastSolutionTime == stopwatch.value(old(readings))
            && (anytimeSolutionTimes, anytimeSolutionScores) ==
               Record(old(anytimeSolutionTimes), old(anytimeSolutionScores), stopwatch.value(old(readings)), s.score)
            && maxConsecutiveInvestigated == 0)
      && (!recorded ==>
            && lastSolutionTime == old(lastSolutionTime)
            && anytimeSolutionTimes == old(anytimeSolutionTimes) && anytimeSolutionScores == old(anytimeSolutionScores)
            && maxConsecutiveInvestigated == old(maxConsecutiveInvestigated))
      && (if timeoutMs > 0 && stopwatch.Some?
          then readings == clock + 1 && timeout == (old(timeout) || stopwatch.value(clock) > timeoutMs)
          else readings == clock && timeout == old(timeout))
    }

    /** The search counters, the tasks, agents and order, and the counts of permutations left are untouched. */
    twostate predicate SearchUnchanged()
      reads this
    {
      && tasks == old(tasks) && agents == old(agents) && order == old(order)
      && skipped == old(skipped) && investigated == old(investigated)
      && permutationsLeft == old(permutationsLeft)
    }

    /** Everything but the incumbent, the trace, the clock readings and the timeout flag is untouched. */
    twostate predicate OnlyIncumbentChanged()
      reads this
    {
      && SearchUnchanged() && stoppingCondition == old(stoppingCondition)
      && evaluated == old(evaluated) && evaluatedScores == old(evaluatedScores)
    }

    method UpdateSolution(s: Solution, newScore: real)
      requires Valid()
      modifies this
      ensures Valid() && SolutionUpdated(s, newScore) && OnlyIncumbentChanged()
    {
      if solution.None? || newScore > solution.value.score {
        solution := Some(s);
        if stopwatch.Some? {
          RecordPoint(s);
        }
      }
      CheckTimeout();
    }

    /** The trace part of updateSolution, after a replacement with a stopwatch. */
    method RecordPoint(s: Solution)
      requires Valid() && stopwatch.Some?
      modifies this
      ensures Valid() && OnlyIncumbentChanged() && solution == old(solution) && timeout == old(timeout)
      ensures lastSolutionTime == stopwatch.value(old(readings)) && readings == old(readings) + 1
      ensures (anytimeSolutionTimes, anytimeSolutionScores) ==
        Record(old(anytimeSolutionTimes), old(anytimeSolutionScores), stopwatch.value(old(readings)), s.score)
      ensures maxConsecutiveInvestigated == 0
    {
      var elapsed := stopwatch.value(readings);
      var lastScore, _ := GetScore(s, false);
      RecordKeepsTrace(anytimeSolutionTimes, anytimeSolutionScores, elapsed, lastScore);
      var times, scores := AppendPoint(anytimeSolutionTimes, anytimeSolutionScores, elapsed, lastScore);
      lastSolutionTime, readings := elapsed, readings + 1;
      anytimeSolutionTimes, anytimeSolutionScores, maxConsecutiveInvestigated := times, scores, 0;
    }

    /** The timeout part of updateSolution. */
    method CheckTimeout()
      requires Valid()
      modifies this
      ensures Valid() && OnlyIncumbentChanged() && solution == old(solution)
      ensures lastSolutionTime == old(lastSolutionTime) && maxConsecutiveInvestigated == old(maxConsecutiveInvestigated)
      ensures anytimeSolutionTimes == old(anytimeSolutionTimes) && anytimeSolutionScores == old(anytimeSolutionScores)
      ensures if timeoutMs > 0 && stopwatch.Some?
        then readings == old(readings) + 1 && timeout == (old(timeout) || stopwatch.value(old(readings)) > timeoutMs)
        else readings == old(readings) && timeout == old(timeout)
    {
      if timeoutMs > 0 && stopwatch.Some? {
        var elapsed := stopwatch.value(readings);
        readings := readings + 1;
        if elapsed > timeoutMs {
          timeout := true;
        }
      }
    }

    /**
     * What updateStoppingCondition(k) does: when it applies, the count for
     * k is lazily initialised, then decremented, and the stopping condition
     * becomes whether it is down to the skipped permutations; otherwise
     * nothing changes.
     */
    twostate predicate StopUpdated(k: int)
      reads this, permutationsLeft
    {
      && permutationsLeft == old(permutationsLeft) && 0 <= k < permutationsLeft.Length
      && (StopApplies(k, solution) ==>
            && permutationsLeft[..] == old(permutationsLeft[..])[k := Initialised(old(permutationsLeft[k]), |tasks|, k) - 1]
            && stoppingCondition == (permutationsLeft[k] - skipped <= 0))
      && (!StopApplies(k, solution) ==>
            permutationsLeft[..] == old(permutationsLeft[..]) && stoppingCondition == old(stoppingCondition))
    }

    method UpdateStoppingCondition(k: int)
      requires k < permutationsLeft.Length
      modifies this, permutationsLeft
      ensures k >= 0 ==> StopUpdated(k)
      ensures k < 0 ==> permutationsLeft[..] == old(permutationsLeft[..]) && stoppingCondition == old(stoppingCondition)
      ensures SearchUnchanged() && solution == old(solution) && timeout == old(timeout) && readings == old(readings)
      ensures anytimeSolutionTimes == old(anytimeSolutionTimes) && anytimeSolutionScores == old(anytimeSolutionScores)
      ensures lastSolutionTime == old(lastSolutionTime) && maxConsecutiveInvestigated == old(maxConsecutiveInvestigated)
      ensures evaluated == old(evaluated) && evaluatedScores == old(evaluatedScores)
    {
      if k >= 0 && solution.Some? && |solution.value.tasks| > 0 && |solution.value.tasks| - 1 <= k {
        var n := |tasks|;
        if permutationsLeft[k] == -1 && n > 0 && k + 1 <= n {
          var count := Choose(n, k + 1);
          if count <= LONG_MAX {
            permutationsLeft[k] := count;
          }
        }
        permutationsLeft[k] := permutationsLeft[k] - 1;
        stoppingCondition := permutationsLeft[k] - skipped <= 0;
      }
    }

    /**
     * getSolutionForSchedule: evaluate the schedule from the given agents,
     * offer the result to the incumbent, and update the stopping condition
     * for the number of tasks it completed.
     */
    method GetSolutionForSchedule(a: seq<int>, clones: seq<Agent>)
      requires Valid() && AllReady(problem, tasks) && InRange(a, |tasks|) && DistinctIds(clones)
      requires permutationsLeft.Length == |tasks| && forall k :: 0 <= k < |tasks| ==> tasks[k].id == k
      modifies this, permutationsLeft
      ensures Valid() && SearchUnchanged()
      ensures var e := Evaluate(problem, old(tasks), a, clones, old(solution));
        var s := Build(e.completed, e.allocations).(score := e.score);
        && |e.completed| <= |tasks|
        && solution == Elect(old(solution), s, e.score)
        && evaluated == old(evaluated) + [a] && evaluatedScores == old(evaluatedScores) + [e.score]
        && (|e.completed| - 1 >= 0 ==> StopUpdated(|e.completed| - 1))
        && (|e.completed| == 0 ==> permutationsLeft[..] == old(permutationsLeft[..]) && stoppingCondition == old(stoppingCondition))
      ensures solution.Some? && solution.value.score >= evaluatedScores[|evaluatedScores| - 1]
      ensures old(solution).Some? ==> solution.value.score >= old(solution).value.score
    {
      var e := EvaluateSchedule(problem, tasks, a, clones, solution);
      EvaluateSound(problem, tasks, a, clones, solution);
      CompletedBound(tasks, a, e.completed);
      var s := NewWithScore(e.completed, e.allocations, e.score);
      UpdateSolution(s, e.score);
      evaluated, evaluatedScores := evaluated + [a], evaluatedScores + [e.score];
      UpdateStoppingCondition(|e.completed| - 1);
    }

    /**
     * One generated permutation: evaluated (on fresh clones of the agents)
     * when the gate admits it, and then counted as investigated, with the
     * convergence counter applied only when there is no permutation budget;
     * otherwise counted as skipped, resetting the consecutive counter.
     */
    method Consider(a: array<int>)
      requires Valid() && AllReady(problem, tasks) && DistinctIds(agents)
      requires forall k :: 0 <= k < |tasks| ==> tasks[k].id == k
      requires permutationsLeft.Length == |tasks| && a != permutationsLeft && InRange(a[..], |tasks|)
      modifies this, permutationsLeft
      ensures Valid() && tasks == old(tasks) && agents == old(agents) && order == old(order)
      ensures permutationsLeft == old(permutationsLeft)
      ensures Admits(tasks, order, a[..]) ==>
        && evaluated == old(evaluated) + [a[..]] && |evaluatedScores| == |old(evaluatedScores)| + 1
        && evaluatedScores[..|old(evaluatedScores)|] == old(evaluatedScores)
        && investigated == old(investigated) + 1 && skipped == old(skipped)
        && solution.Some? && solution.value.score >= evaluatedScores[|old(evaluatedScores)|]
        && (maxPermutations <= 0 && maxConsecutiveInvestigatedLimit > 0 ==>
              stoppingCondition == (maxConsecutiveInvestigated >= maxConsecutiveInvestigatedLimit))
      ensures !Admits(tasks, order, a[..]) ==>
        && evaluated == old(evaluated) && evaluatedScores == old(evaluatedScores)
        && investigated == old(investigated) && skipped == old(skipped) + 1
        && solution == old(solution) && maxConsecutiveInvestigated == 0
        && stoppingCondition == old(stoppingCondition) && timeout == old(timeout)
      ensures old(solution).Some? ==> solution.Some? && solution.value.score >= old(solution).value.score
    {
      var gate := order.None?;
      if !gate && |order.value| > 0 {
        gate := CheckOrder(tasks, order, a);
      }
      if gate {
        Investigate(a);
      } else {
        skipped := skipped + 1;
        maxConsecutiveInvestigated := 0;
      }
    }

    /**
     * An admitted permutation: evaluated on fresh clones of the agents and
     * counted as investigated, with the convergence counter applied only
     * when there is no permutation budget.
     */
    method Investigate(a: array<int>)
      requires Valid() && AllReady(problem, tasks) && DistinctIds(agents)
      requires forall k :: 0 <= k < |tasks| ==> tasks[k].id == k
      requires permutationsLeft.Length == |tasks| && a != permutationsLeft && InRange(a[..], |tasks|)
      modifies this, permutationsLeft
      ensures Valid() && tasks == old(tasks) && agents == old(agents) && order == old(order)
      ensures permutationsLeft == old(permutationsLeft)
      ensures evaluated == old(evaluated) + [a[..]] && |evaluatedScores| == |old(evaluatedScores)| + 1
      ensures evaluatedScores[..|old(evaluatedScores)|] == old(evaluatedScores)
      ensures investigated == old(investigated) + 1 && skipped == old(skipped)
      ensures solution.Some? && solution.value.score >= evaluatedScores[|old(evaluatedScores)|]
      ensures maxPermutations <= 0 && maxConsecutiveInvestigatedLimit > 0 ==>
        stoppingCondition == (maxConsecutiveInvestigated >= maxConsecutiveInvestigatedLimit)
      ensures old(solution).Some? ==> solution.value.score >= old(solution).value.score
    {
      var schedule := a[..];
      var clones := Toolkit.Clones(agents);
      Toolkit.ClonesAreReset(agents);
      GetSolutionForSchedule(schedule, clones);
      investigated := investigated + 1;
      if maxPermutations <= 0 && maxConsecutiveInvestigatedLimit > 0 {
        maxConsecutiveInvestigated := maxConsecutiveInvestigated + 1;
        stoppingCondition := maxConsecutiveInvestigated >= maxConsecutiveInvestigatedLimit;
      }
    }

    /**
     * What the search keeps true of the schedules evaluated since position
     * `prior` of the record: the first is the initial schedule, each is a
     * permutation of it, each later one passed the gate, each but the first
     * counts as investigated, and the incumbent scores at least as high as
     * every one of them.
     */
    ghost predicate Searching(a0: seq<int>, prior: nat, inv0: int)
      reads this
    {
      Valid() && SearchOk(tasks, order, evaluated, evaluatedScores, investigated, skipped, solution, a0, prior, inv0)
    }

    /**
     * One swap step of Heap's algorithm at position i (whose counter is
     * below i): swap a[j] and a[i], with j = 0 for an even i and c[i] for an
     * odd one, consider the permutation, and count the step in c[i].
     */
    method SwapStep(a: array<int>, c: array<int>, i: int, ghost a0: seq<int>, ghost prior: nat, ghost inv0: int)
      requires Searching(a0, prior, inv0) && AllReady(problem, tasks) && DistinctIds(agents)
      requires forall k :: 0 <= k < |tasks| ==> tasks[k].id == k
      requires permutationsLeft.Length == |tasks| == a.Length == c.Length
      requires a != c && a != permutationsLeft && c != permutationsLeft
      requires InRange(a[..], |tasks|) && multiset(a[..]) == multiset(a0)
      requires Counters(c[..], i) && i < c.Length && c[i] < i
      modifies this, permutationsLeft, a, c
      ensures Searching(a0, prior, inv0)
      ensures tasks == old(tasks) && agents == old(agents) && order == old(order) && permutationsLeft == old(permutationsLeft)
      ensures InRange(a[..], |tasks|) && multiset(a[..]) == multiset(a0)
      ensures a[..] == Swapped(old(a[..]), SwapIndex(old(c[..]), i), i)
      ensures c[..] == old(c[..])[i := old(c[i]) + 1]
      ensures investigated + skipped == old(investigated) + old(skipped) + 1
      ensures old(solution).Some? ==> solution.Some? && solution.value.score >= old(solution).value.score
    {
      ghost var before := a[..];
      SwapEntries(a, c, i);
      SwapInRange(before, SwapIndex(c[..], i), i, |tasks|);
      ConsiderKeeping(a, a0, prior, inv0);
      c[i] := c[i] + 1;
    }

    /** Considering a permutation of the initial schedule keeps what the search keeps, and counts it once. */
    method ConsiderKeeping(a: array<int>, ghost a0: seq<int>, ghost prior: nat, ghost inv0: int)
      requires Searching(a0, prior, inv0) && AllReady(problem, tasks) && DistinctIds(agents)
      requires forall k :: 0 <= k < |tasks| ==> tasks[k].id == k
      requires permutationsLeft.Length == |tasks| == a.Length && a != permutationsLeft
      requires InRange(a[..], |tasks|) && multiset(a[..]) == multiset(a0)
      modifies this, permutationsLeft
      ensures Searching(a0, prior, inv0)
      ensures tasks == old(tasks) && agents == old(agents) && order == old(order) && permutationsLeft == old(permutationsLeft)
      ensures investigated + skipped == old(investigated) + old(skipped) + 1
      ensures old(solution).Some? ==> solution.Some? && solution.value.score >= old(solution).value.score
    {
      ghost var ev, sc, inv, sk, sol := evaluated, evaluatedScores, investigated, skipped, solution;
      Consider(a);
      if Admits(tasks, order, a[..]) {
        assert evaluatedScores == sc + [evaluatedScores[|sc|]];
        SearchOkAdmitted(tasks, order, ev, sc, inv, sk, sol, a0, prior, inv0, a[..], evaluatedScores[|sc|], solution);
      } else {
        SearchOkSkipped(tasks, order, ev, sc, inv, sk, sol, a0, prior, inv0);
      }
    }

    /**
     * One turn of Heap's loop at position i: a swap step when c[i] < i,
     * after which the walk restarts at 0; otherwise c[i] is reset and the
     * walk moves on to i + 1, which changes nothing else.
     */
    method HeapStep(a: array<int>, c: array<int>, i: int, ghost a0: seq<int>, ghost prior: nat, ghost inv0: int)
      returns (next: int, swapped: bool)
      requires Searching(a0, prior, inv0) && AllReady(problem, tasks) && DistinctIds(agents)
      requires forall k :: 0 <= k < |tasks| ==> tasks[k].id == k
      requires permutationsLeft.Length == |tasks| == a.Length == c.Length
      requires a != c && a != permutationsLeft && c != permutationsLeft
      requires InRange(a[..], |tasks|) && multiset(a[..]) == multiset(a0)
      requires Counters(c[..], i) && i < c.Length
      modifies this, permutationsLeft, a, c
      ensures Searching(a0, prior, inv0)
      ensures tasks == old(tasks) && agents == old(agents) && order == old(order) && permutationsLeft == old(permutationsLeft)
      ensures InRange(a[..], |tasks|) && multiset(a[..]) == multiset(a0)
      ensures Counters(c[..], next) && swapped == (old(c[i]) < i)
      ensures swapped ==> next == 0 && Rank(c[..], 0) == Rank(old(c[..]), i) + 1
      ensures swapped ==> investigated + skipped == old(investigated) + old(skipped) + 1
      ensures !swapped ==> next == i + 1 && Rank(c[..], next) == Rank(old(c[..]), i)
      ensures !swapped ==> investigated == old(investigated) && skipped == old(skipped)
      ensures !swapped ==> stoppingCondition == old(stoppingCondition) && timeout == old(timeout)
      ensures old(solution).Some? ==> solution.Some? && solution.value.score >= old(solution).value.score
    {
      if c[i] < i {
        RankAdvances(c[..], i);
        SwapStep(a, c, i, a0, prior, inv0);
        next, swapped := 0, true;
      } else {
        RankCarries(c[..], i);
        c[i] := 0;
        next, swapped := i + 1, false;
      }
    }

    /**
     * The start of solve: the stopping condition, the skip count and the
     * consecutive counter are cleared, permutationsLeft is a fresh array
     * holding -1 for each position of the task set, the counters are zero,
     * and the initial schedule (the task set in comparator order) is
     * evaluated first.
     */
    method Begin() returns (a: array<int>, c: array<int>)
      requires Valid() && AllReady(problem, tasks) && DistinctIds(agents)
      requires forall k :: 0 <= k < |tasks| ==> tasks[k].id == k
      modifies this
      ensures fresh(a) && fresh(c) && fresh(permutationsLeft)
      ensures a != c && a != permutationsLeft && c != permutationsLeft
      ensures a.Length == c.Length == permutationsLeft.Length == |tasks|
      ensures tasks == old(tasks) && agents == old(agents) && order == old(order)
      ensures a[..] == InitialSchedule(tasks, order) && InRange(a[..], |tasks|)
      ensures Counters(c[..], 0) && Rank(c[..], 0) == 0
      ensures Searching(InitialSchedule(tasks, order), |old(evaluated)|, old(investigated))
      ensures investigated == old(investigated) && skipped == 0
      ensures old(solution).Some? ==> solution.Some? && solution.value.score >= old(solution).value.score
    {
      stoppingCondition := false;
      skipped := 0;
      var left;
      a, c, left := Prepare(problem.tasks, order);
      permutationsLeft := left;
      maxConsecutiveInvestigated := 0;
      Toolkit.ClonesAreReset(agents);
      ghost var prior := |evaluated|;
      GetSolutionForSchedule(a[..], Toolkit.Clones(agents));
      SearchOkStarted(tasks, order, evaluated, evaluatedScores, investigated, solution, a[..], prior);
    }

    /**
     * The loop of solve: Heap's algorithm over the schedule `a` with the
     * counters `c`. It ends when the counters run out, on the stopping
     * condition, on a timeout, or right after a swap step that brings
     * investigated plus skipped to a positive budget; when none of the last
     * three holds, it has made n! - 1 swaps.
     */
    method Walk(a: array<int>, c: array<int>, ghost a0: seq<int>, ghost prior: nat, ghost inv0: int)
      requires Searching(a0, prior, inv0) && AllReady(problem, tasks) && DistinctIds(agents)
      requires forall k :: 0 <= k < |tasks| ==> tasks[k].id == k
      requires permutationsLeft.Length == |tasks| == a.Length == c.Length
      requires a != c && a != permutationsLeft && c != permutationsLeft
      requires InRange(a[..], |tasks|) && multiset(a[..]) == multiset(a0)
      requires Counters(c[..], 0) && Rank(c[..], 0) == 0 && investigated == inv0 && skipped == 0
      modifies this, permutationsLeft, a, c
      ensures Searching(a0, prior, inv0)
      ensures tasks == old(tasks) && agents == old(agents) && order == old(order) && permutationsLeft == old(permutationsLeft)
      ensures old(solution).Some? ==> solution.Some? && solution.value.score >= old(solution).value.score
      ensures maxPermutations > 0 && inv0 < maxPermutations ==> investigated + skipped <= maxPermutations
      ensures !stoppingCondition && !timeout && !(maxPermutations > 0 && investigated + skipped >= maxPermutations) ==>
        investigated - inv0 + skipped == Fact(|tasks|) - 1
    {
      var n := |tasks|;
      var i := 0;
      RankBound(c[..], 0);
      while i < n && !stoppingCondition && !timeout
        invariant Searching(a0, prior, inv0)
        invariant tasks == old(tasks) && agents == old(agents) && order == old(order) && permutationsLeft == old(permutationsLeft)
        invariant InRange(a[..], n) && multiset(a[..]) == multiset(a0)
        invariant Counters(c[..], i) && Rank(c[..], i) == investigated - inv0 + skipped < Fact(n)
        invariant old(solution).Some? ==> solution.Some? && solution.value.score >= old(solution).value.score
        invariant maxPermutations > 0 && inv0 < maxPermutations ==> investigated + skipped < maxPermutations
        decreases Fact(n) - Rank(c[..], i), n - i
      {
        var swapped;
        i, swapped := HeapStep(a, c, i, a0, prior, inv0);
        RankBound(c[..], i);
        if swapped && maxPermutations > 0 && investigated + skipped >= maxPermutations {
          break;
        }
      }
    }

    /** solve: the start, then the walk over the permutations of the initial schedule. */
    method Solve()
      requires Valid() && AllReady(problem, tasks) && DistinctIds(agents)
      requires forall k :: 0 <= k < |tasks| ==> tasks[k].id == k
      modifies this
      ensures tasks == old(tasks) && agents == old(agents) && order == old(order)
      ensures fresh(permutationsLeft) && permutationsLeft.Length == |tasks|
      ensures Searching(InitialSchedule(tasks, order), |old(evaluated)|, old(investigated))
      ensures old(solution).Some? ==> solution.Some? && solution.value.score >= old(solution).value.score
      ensures maxPermutations > 0 && old(investigated) < maxPermutations ==> investigated + skipped <= maxPermutations
      ensures !stoppingCondition && !timeout && !(maxPermutations > 0 && investigated + skipped >= maxPermutations) ==>
        investigated - old(investigated) + skipped == Fact(|tasks|) - 1
    {
      ghost var a0, prior, inv0 := InitialSchedule(tasks, order), |evaluated|, investigated;
      var a, c := Begin();
      Walk(a, c, a0, prior, inv0);
    }
  }
}
