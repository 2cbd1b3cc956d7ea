/**
 * The normal and modified-normal value functions: a table with one entry
 * per agent, looked up by coalition size. Entry i is |N(10 (i + 1), 0.1)|,
 * plus |U(0, 50)| when modified and a one-in-five roll comes up.
 */
module Normal {
  import opened Locations
  import opened Tasks
  import opened Agents
  import opened ValueTables

  /**
   * The draws for one entry: the normal sample, the roll of `nextInt(5)`
   * (made only when modified) and the bonus sample.
   */
  datatype NormalDraw = NormalDraw(sample: real, roll: int, bonus: real)

  datatype NormalProblem = NormalProblem(modified: bool, coalitionValues: seq<real>)

  function Entry(modified: bool, d: NormalDraw): real {
    RealAbs(d.sample) + (if modified && d.roll == 0 then RealAbs(d.bonus) else 0.0)
  }

  /** The constructor: one set of draws per agent, in agent order. */
  method New(agents: seq<Agent>, modified: bool, draws: seq<NormalDraw>) returns (p: NormalProblem)
    requires |draws| == |agents|
    ensures p.modified == modified && |p.coalitionValues| == |agents|
    ensures forall i :: 0 <= i < |agents| ==> p.coalitionValues[i] == Entry(modified, draws[i])
  {
    var coalitionValues := new real[|agents|];
    for i := 0 to |agents|
      invariant forall k :: 0 <= k < i ==> coalitionValues[k] == Entry(modified, draws[k])
    {
      var d := draws[i];
      coalitionValues[i] := RealAbs(d.sample);
      if modified && d.roll == 0 {
        coalitionValues[i] := coalitionValues[i] + RealAbs(d.bonus);
      }
    }
    p := NormalProblem(modified, coalitionValues[..]);
  }

  /** getValue: the entry for the coalition's size, whatever the task and location. */
  function GetValue(p: NormalProblem, task: Task, location: Location, coalition: seq<Agent>): (r: real)
    requires SizeIndex(|coalition|) < |p.coalitionValues|
  {
    p.coalitionValues[SizeIndex(|coalition|)]
  }

  /**
   * An entry is never below its normal sample's absolute value, and exceeds
   * it (by exactly the bonus's absolute value) only for a modified instance
   * on the roll of 0.
   */
  lemma EntryMeaning(modified: bool, d: NormalDraw)
    ensures Entry(modified, d) >= RealAbs(d.sample) >= 0.0
    ensures !(modified && d.roll == 0) ==> Entry(modified, d) == RealAbs(d.sample)
    ensures modified && d.roll == 0 ==> Entry(modified, d) - RealAbs(d.sample) == RealAbs(d.bonus)
  {
  }

  /**
   * The value of a coalition of size k agrees with the entry drawn for
   * position k - 1 (position 0 for the empty coalition), whatever the task,
   * location or members, and is never negative.
   */
  lemma ValueIsEntry(p: NormalProblem, draws: seq<NormalDraw>, task: Task, location: Location, coalition: seq<Agent>)
    requires |draws| == |p.coalitionValues| && SizeIndex(|coalition|) < |draws|
    requires forall i :: 0 <= i < |draws| ==> p.coalitionValues[i] == Entry(p.modified, draws[i])
    ensures GetValue(p, task, location, coalition) == Entry(p.modified, draws[SizeIndex(|coalition|)])
    ensures GetValue(p, task, location, coalition) >= 0.0
  {
    EntryMeaning(p.modified, draws[SizeIndex(|coalition|)]);
  }
}
