/**
 * The uniform and modified-uniform value functions: a table with one entry
 * per agent, looked up by coalition size. Entry i is |U(0, i + 1)|, or when
 * modified |U(0, 10 (i + 1))| plus, on a one-in-five roll, |U(0, 50)|.
 */
module Uniform {
  import opened Locations
  import opened Tasks
  import opened Agents
  import opened ValueTables

  /** The draws for one entry: the base sample, the roll of `nextInt(5)` and the bonus sample. */
  datatype UniformDraw = UniformDraw(sample: real, roll: int, bonus: real)

  datatype UniformProblem = UniformProblem(modified: bool, coalitionValues: seq<real>)

  /** The constructor's entry for position i. */
  function Entry(modified: bool, d: UniformDraw): real {
    if modified then RealAbs(d.sample) + (if d.roll == 0 then RealAbs(d.bonus) else 0.0)
    else RealAbs(d.sample)
  }

  /** The constructor: one set of draws per agent, in agent order. */
  method New(agents: seq<Agent>, modified: bool, draws: seq<UniformDraw>) returns (p: UniformProblem)
    requires |draws| == |agents|
    ensures p.modified == modified && |p.coalitionValues| == |agents|
    ensures forall i :: 0 <= i < |agents| ==> p.coalitionValues[i] == Entry(modified, draws[i])
  {
    var coalitionValues := new real[|agents|];
    for i := 0 to |agents|
      invariant forall k :: 0 <= k < i ==> coalitionValues[k] == Entry(modified, draws[k])
    {
      var d := draws[i];
      if modified {
        coalitionValues[i] := RealAbs(d.sample);
        if d.roll == 0 {
          coalitionValues[i] := coalitionValues[i] + RealAbs(d.bonus);
        }
      } else {
        coalitionValues[i] := RealAbs(d.sample);
      }
    }
    p := UniformProblem(modified, coalitionValues[..]);
  }

  /** getValue: the entry for the coalition's size, whatever the task and location. */
  function GetValue(p: UniformProblem, task: Task, location: Location, coalition: seq<Agent>): (r: real)
    requires SizeIndex(|coalition|) < |p.coalitionValues|
  {
    p.coalitionValues[SizeIndex(|coalition|)]
  }

  /** The draws for entry i lie in the ranges of their distributions. */
  predicate InSupport(modified: bool, i: nat, d: UniformDraw) {
    && 0.0 <= d.sample <= (if modified then 10.0 else 1.0) * (i + 1) as real
    && 0.0 <= d.bonus <= 50.0
  }

  /**
   * Every entry is at least 0. With draws in range, an unmodified entry is
   * at most i + 1, and a modified one at most 10 (i + 1), plus 50 only on
   * the roll that adds the bonus.
   */
  lemma EntryBounds(modified: bool, i: nat, d: UniformDraw)
    ensures Entry(modified, d) >= 0.0
    ensures InSupport(modified, i, d) && !modified ==> Entry(modified, d) <= (i + 1) as real
    ensures InSupport(modified, i, d) && modified ==>
      Entry(modified, d) <= 10.0 * (i + 1) as real + (if d.roll == 0 then 50.0 else 0.0)
  {
  }

  /**
   * The value of a coalition of size k agrees with the entry drawn for
   * position k - 1 (position 0 for the empty coalition): it never depends on
   * the task, the location or which agents form the coalition, and it is
   * never negative.
   */
  lemma ValueIsEntry(p: UniformProblem, draws: seq<UniformDraw>, task: Task, location: Location, coalition: seq<Agent>)
    requires |draws| == |p.coalitionValues| && SizeIndex(|coalition|) < |draws|
    requires forall i :: 0 <= i < |draws| ==> p.coalitionValues[i] == Entry(p.modified, draws[i])
    ensures GetValue(p, task, location, coalition) == Entry(p.modified, draws[SizeIndex(|coalition|)])
    ensures GetValue(p, task, location, coalition) >= 0.0
  {
    EntryBounds(p.modified, SizeIndex(|coalition|), draws[SizeIndex(|coalition|)]);
  }
}
