/**
 * The per-time-unit score shared by `Solution.getScore` and
 * `Solver.getMarginalScore`: full profit up to the soft deadline, then
 * `(1 - (t - soft) / (hard - soft + 1)) * profit` with Java integer division.
 */
module Scores {
  import opened TimeWindows

  function Abs(x: int): nat {
    if x < 0 then -x else x
  }

  /** Java's `/` on int: the quotient is truncated toward zero (Dafny's `/` is Euclidean). */
  function JavaDiv(a: int, b: int): (q: int)
    requires b != 0
  {
    if a >= 0 && b > 0 then a / b
    else if a < 0 && b < 0 then (-a) / (-b)
    else if a >= 0 then -(a / (-b))
    else -((-a) / b)
  }

  /**
   * Truncation toward zero: negating the dividend or the divisor negates
   * the quotient, so the quotient's magnitude never depends on the signs.
   */
  lemma JavaDivSymmetric(a: int, b: int)
    requires b != 0
    ensures JavaDiv(-a, b) == -JavaDiv(a, b)
    ensures JavaDiv(a, -b) == -JavaDiv(a, b)
  {
  }

  /** On a non-negative dividend and a positive divisor the two divisions agree. */
  lemma JavaDivNonNegative(a: int, b: int)
    requires a >= 0 && b > 0
    ensures JavaDiv(a, b) == a / b
    ensures a < b ==> JavaDiv(a, b) == 0
    ensures a >= b ==> JavaDiv(a, b) >= 1
  {
  }

  /** The divisor of the decay term is non-zero (it is zero only when hard = soft - 1). */
  predicate DecayDefined(tw: TimeWindow) {
    tw.hardLatestTime - tw.softLatestTime + 1 != 0
  }

  /** Score of one unit of work at time t; the source divides only once t is past the soft deadline. */
  function UnitScore(tw: TimeWindow, profit: real, t: int): real
    requires t <= tw.softLatestTime || DecayDefined(tw)
  {
    if t <= tw.softLatestTime then profit
    else (1 - JavaDiv(t - tw.softLatestTime, tw.hardLatestTime - tw.softLatestTime + 1)) as real * profit
  }

  /** The decay is defined on every unit of [s, e] at which it is evaluated. */
  predicate Scorable(tw: TimeWindow, e: int) {
    e <= tw.softLatestTime || DecayDefined(tw)
  }

  /** Sum of the unit scores over t in [s, e], accumulated in increasing t. */
  function IntervalScore(tw: TimeWindow, profit: real, s: int, e: int): real
    requires e < s || Scorable(tw, e)
    decreases e - s
  {
    if e < s then 0.0 else IntervalScore(tw, profit, s, e - 1) + UnitScore(tw, profit, e)
  }

  /** The loop over t in [s, e] that adds each unit's score to `init`. */
  method AccumulateInterval(tw: TimeWindow, profit: real, s: int, e: int, init: real) returns (acc: real)
    requires e < s || Scorable(tw, e)
    ensures acc == init + IntervalScore(tw, profit, s, e)
  {
    acc := init;
    var t := s;
    while t <= e
      invariant s <= t
      invariant t <= e + 1 || t == s
      invariant acc == init + IntervalScore(tw, profit, s, t - 1)
    {
      acc := acc + UnitScore(tw, profit, t);
      t := t + 1;
    }
  }

  /** Up to the hard deadline, the integer division is 0 and every unit is worth the full profit. */
  lemma UnitFullProfitUntilHard(tw: TimeWindow, profit: real, t: int)
    requires t <= tw.hardLatestTime
    ensures Scorable(tw, t)
    ensures UnitScore(tw, profit, t) == profit
  {
    if t > tw.softLatestTime {
      var d := tw.hardLatestTime - tw.softLatestTime + 1;
      JavaDivNonNegative(t - tw.softLatestTime, d);
    }
  }

  /** Past the hard deadline of a window with soft <= hard, a unit adds nothing or loses profit. */
  lemma UnitNonPositivePastHard(tw: TimeWindow, profit: real, t: int)
    requires tw.softLatestTime <= tw.hardLatestTime < t
    requires profit >= 0.0
    ensures Scorable(tw, t)
    ensures UnitScore(tw, profit, t) <= 0.0
  {
    var d := tw.hardLatestTime - tw.softLatestTime + 1;
    assert t - tw.softLatestTime >= d > 0;
    JavaDivNonNegative(t - tw.softLatestTime, d);
  }

  /** Scorability only depends on the last unit. */
  lemma ScorableDown(tw: TimeWindow, e: int, e': int)
    requires Scorable(tw, e) && e' <= e
    ensures Scorable(tw, e')
  {
  }

  /** Within the hard deadline an interval is worth (number of units) * profit; an empty one is worth 0. */
  lemma {:induction false} IntervalFullProfitUntilHard(tw: TimeWindow, profit: real, s: int, e: int)
    requires e <= tw.hardLatestTime
    ensures Scorable(tw, e)
    ensures e < s ==> IntervalScore(tw, profit, s, e) == 0.0
    ensures s <= e ==> IntervalScore(tw, profit, s, e) == (e - s + 1) as real * profit
    decreases e - s
  {
    UnitFullProfitUntilHard(tw, profit, e);
    if s < e {
      IntervalFullProfitUntilHard(tw, profit, s, e - 1);
      assert (e - 1) - s + 1 == e - s;
      FullProfitStep(tw, profit, s, e);
    } else if s == e {
      assert IntervalScore(tw, profit, s, e - 1) == 0.0;
    }
  }

  lemma FullProfitStep(tw: TimeWindow, profit: real, s: int, e: int)
    requires s <= e && Scorable(tw, e)
    requires IntervalScore(tw, profit, s, e - 1) == (e - s) as real * profit
    requires UnitScore(tw, profit, e) == profit
    ensures IntervalScore(tw, profit, s, e) == (e - s + 1) as real * profit
  {
    ProductSuccessor(e - s, profit);
  }

  lemma ProductSuccessor(n: int, p: real)
    ensures (n + 1) as real * p == n as real * p + p
  {
  }

  /** An interval splits into two consecutive ones. */
  lemma {:induction false} IntervalSplit(tw: TimeWindow, profit: real, s: int, m: int, e: int)
    requires s - 1 <= m <= e && Scorable(tw, e)
    ensures Scorable(tw, m)
    ensures IntervalScore(tw, profit, s, e) == IntervalScore(tw, profit, s, m) + IntervalScore(tw, profit, m + 1, e)
    decreases e - m
  {
    if m < e {
      IntervalSplit(tw, profit, s, m, e - 1);
    }
  }
}
